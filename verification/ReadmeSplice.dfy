/** Rewriting the generated section of the README and checking it
    (tools/gates/generate_arch_diagrams.py, main). */
module ReadmeSplice {
  import opened Texts

  type Text = string

  const TAIL: Text := " GENERATED: architecture-diagrams -->"
  const BEGIN: Text := "<!-- BEGIN" + TAIL
  const END: Text := "<!-- END" + TAIL

  /** str.find: the first occurrence, or -1. */
  function Find(t: Text, pat: Text): (k: int)
    ensures k == -1 || OccursAt(t, pat, k)
    ensures k == -1 ==> forall m :: !OccursAt(t, pat, m)
    ensures k >= 0 ==> forall m :: 0 <= m < k ==> !OccursAt(t, pat, m)
  {
    FindFrom(t, pat, 0)
  }

  function FindFrom(t: Text, pat: Text, from: nat): (k: int)
    requires from <= |t| + 1
    ensures k == -1 || (k >= from && OccursAt(t, pat, k))
    ensures k == -1 ==> forall m :: m >= from ==> !OccursAt(t, pat, m)
    ensures k >= 0 ==> forall m :: from <= m < k ==> !OccursAt(t, pat, m)
    decreases |t| + 1 - from
  {
    if from + |pat| > |t| then -1
    else if OccursAt(t, pat, from) then from
    else FindFrom(t, pat, from + 1)
  }

  function Block(rendering: Text): Text { BEGIN + ['\n'] + rendering + END }

  predicate HasMarkers(t: Text) {
    var i, j := Find(t, BEGIN), Find(t, END);
    i != -1 && j != -1 && i <= j
  }

  /** The text with the section between the markers replaced. */
  function Updated(t: Text, rendering: Text): Text
    requires HasMarkers(t)
  {
    t[..Find(t, BEGIN)] + Block(rendering) + t[Find(t, END) + |END|..]
  }

  class Readme {
    var text: Text

    /** Exit status: 0 up to date or rewritten, 1 stale, 2 markers missing. */
    method Run(rendering: Text, check: bool) returns (status: int)
      modifies this
      ensures !HasMarkers(old(text)) ==> status == 2 && text == old(text)
      ensures HasMarkers(old(text)) && check ==>
                text == old(text) && status == if Updated(old(text), rendering) == old(text) then 0 else 1
      ensures HasMarkers(old(text)) && !check ==> status == 0 && text == Updated(old(text), rendering)
    {
      var i, j := Find(text, BEGIN), Find(text, END);
      if i == -1 || j == -1 || j < i {
        return 2;
      }
      var newBlock := BEGIN + ['\n'] + rendering + END;
      var updated := text[..i] + newBlock + text[j + |END|..];
      if check {
        return if updated == text then 0 else 1;
      }
      text := updated;
      return 0;
    }
  }

  /** The markers are there exactly if the first END is not before the first BEGIN. */
  lemma MarkersMean(t: Text)
    ensures HasMarkers(t) <==>
              exists i, j ::
                && 0 <= i <= j && OccursAt(t, BEGIN, i) && OccursAt(t, END, j)
                && (forall m :: m < i ==> !OccursAt(t, BEGIN, m))
                && (forall m :: m < j ==> !OccursAt(t, END, m))
  {
    var i, j := Find(t, BEGIN), Find(t, END);
    if HasMarkers(t) {
      assert 0 <= i <= j && OccursAt(t, BEGIN, i) && OccursAt(t, END, j);
    } else {
      forall a, b | 0 <= a <= b && OccursAt(t, BEGIN, a) && OccursAt(t, END, b)
        ensures !((forall m :: m < a ==> !OccursAt(t, BEGIN, m)) && (forall m :: m < b ==> !OccursAt(t, END, m)))
      {
        assert i != -1 && j != -1 && i > j;
        assert a >= i && b >= j;
        assert a != i || b != j;
      }
    }
  }

  // ---- Why the splice is stable ----

  /** '<' opens a marker and occurs nowhere else in it, so markers do not
      overlap; and the two markers differ. */
  lemma MarkerShape()
    ensures BEGIN[0] == '<' && END[0] == '<'
    ensures forall k :: 0 < k < |BEGIN| ==> BEGIN[k] != '<'
    ensures forall k :: 0 < k < |END| ==> END[k] != '<'
    ensures BEGIN[5] != END[5] && |BEGIN| > 5 && |END| > 5
  {
    var b, e := "<!-- BEGIN", "<!-- END";
    forall k | 0 < k < |BEGIN| ensures BEGIN[k] != '<' {
      assert BEGIN[k] == if k < |b| then b[k] else TAIL[k - |b|];
    }
    forall k | 0 < k < |END| ensures END[k] != '<' {
      assert END[k] == if k < |e| then e[k] else TAIL[k - |e|];
    }
  }

  lemma NotBoth(t: Text, k: int)
    requires OccursAt(t, BEGIN, k)
    ensures !OccursAt(t, END, k)
  {
    MarkerShape();
    OccursChar(t, BEGIN, k, 5);
    if OccursAt(t, END, k) { OccursChar(t, END, k, 5); }
  }

  lemma OccursChar(t: Text, pat: Text, k: int, n: nat)
    requires OccursAt(t, pat, k) && n < |pat|
    ensures t[k + n] == pat[n]
  {
    assert t[k..k + |pat|][n] == pat[n];
  }

  /** A marker at k and a '<' strictly inside it cannot both be there. */
  lemma NoStraddle(t: Text, marker: Text, k: int, at: int)
    requires marker == BEGIN || marker == END
    requires OccursAt(t, marker, k) && k <= at < k + |marker| && t[at] == '<'
    ensures at == k
  {
    MarkerShape();
    OccursChar(t, marker, k, at - k);
  }

  /** An occurrence inside a part of the text is one in the whole text, and back. */
  lemma OccursInside(front: Text, part: Text, back: Text, pat: Text, k: int)
    requires 0 <= k && k + |pat| <= |part|
    ensures OccursAt(part, pat, k) <==> OccursAt(front + part + back, pat, |front| + k)
  {
    var t := front + part + back;
    assert t[|front| + k..|front| + k + |pat|] == part[k..k + |pat|];
  }

  lemma OccursInFront(front: Text, back: Text, pat: Text, k: int)
    requires 0 <= k && k + |pat| <= |front|
    ensures OccursAt(front, pat, k) <==> OccursAt(front + back, pat, k)
  {
    assert (front + back)[k..k + |pat|] == front[k..k + |pat|];
  }

  /** The pieces of a rewritten README. */
  function Rewritten(front: Text, rendering: Text, back: Text): Text {
    front + Block(rendering) + back
  }

  lemma Slices(a: Text, b: Text, c: Text)
    ensures var t := a + b + c;
            && t[..|a|] == a && t[|a|..|a| + |b|] == b && t[|a| + |b|..] == c
            && OccursAt(t, b, |a|)
  {
    assert (a + b + c)[|a|..|a| + |b|] == b;
  }

  /** Everything up to the rendering, and everything behind it. */
  function Opening(front: Text): Text { front + BEGIN + ['\n'] }
  function Closing(back: Text): Text { END + back }

  lemma Regroup(front: Text, rendering: Text, back: Text)
    ensures var u := Rewritten(front, rendering, back);
            && u == front + (Block(rendering) + back)
            && u == Opening(front) + rendering + Closing(back)
  {
    assert Block(rendering) + back == (BEGIN + ['\n'] + rendering) + Closing(back);
    assert front + (BEGIN + ['\n'] + rendering) == Opening(front) + rendering;
    assert Rewritten(front, rendering, back) == front + (BEGIN + ['\n'] + rendering) + Closing(back);
  }

  lemma PieceBounds(front: Text, rendering: Text, back: Text)
    ensures var u, e := Rewritten(front, rendering, back), |front| + |BEGIN| + 1 + |rendering|;
            && OccursAt(u, BEGIN, |front|) && OccursAt(u, END, e)
            && u[|front|] == '<' && u[|front| + |BEGIN|] == '\n'
            && u[..|front|] == front && u[e + |END|..] == back && |u| == e + |END| + |back|
  {
    BeginPiece(front, rendering, back);
    Regroup(front, rendering, back);
    assert Rewritten(front, rendering, back) == (Opening(front) + rendering) + END + back;
    Slices(Opening(front) + rendering, END, back);
  }

  lemma BeginPiece(front: Text, rendering: Text, back: Text)
    ensures var u := Rewritten(front, rendering, back);
            && OccursAt(u, BEGIN, |front|) && u[..|front|] == front
            && u[|front|] == '<' && u[|front| + |BEGIN|] == '\n'
  {
    var u, opening := Rewritten(front, rendering, back), Opening(front);
    var more := rendering + Closing(back);
    Regroup(front, rendering, back);
    assert u == opening + more;
    MarkerShape();
    Slices(front, BEGIN, ['\n']);
    OccursInFront(opening, more, BEGIN, |front|);
    OccursChar(u, BEGIN, |front|, 0);
    assert u[..|front|] == opening[..|front|];
    assert u[|front| + |BEGIN|] == opening[|front| + |BEGIN|];
  }

  /** A marker that does not occur in the text before the section does not
      occur in the new text before the section either. */
  lemma NothingBefore(front: Text, rendering: Text, back: Text, marker: Text, k: int)
    requires marker == BEGIN || marker == END
    requires forall m :: !OccursAt(front, marker, m)
    requires OccursAt(Rewritten(front, rendering, back), marker, k)
    ensures k >= |front|
  {
    var u := Rewritten(front, rendering, back);
    PieceBounds(front, rendering, back);
    if k < |front| {
      if k + |marker| <= |front| {
        Regroup(front, rendering, back);
        OccursInFront(front, Block(rendering) + back, marker, k);
      } else {
        NoStraddle(u, marker, k, |front|);
      }
    }
  }

  /** The END markers of the new section: one inside the rendering, or the closing one. */
  lemma EndInside(front: Text, rendering: Text, back: Text, k: int)
    requires OccursAt(Rewritten(front, rendering, back), END, k)
    requires |front| <= k < |front| + |BEGIN| + 1 + |rendering|
    ensures Contains(rendering, END)
  {
    var u, e := Rewritten(front, rendering, back), |front| + |BEGIN| + 1 + |rendering|;
    var start := |front| + |BEGIN| + 1;
    PieceBounds(front, rendering, back);
    NotInBegin(u, |front|, k);
    MarkerShape();
    OccursChar(u, END, k, 0);
    OccursChar(u, END, e, 0);
    if k + |END| > e { NoStraddle(u, END, k, e); }
    Regroup(front, rendering, back);
    OccursInside(Opening(front), rendering, Closing(back), END, k - start);
  }

  /** An END marker does not start at, inside or right behind a BEGIN line. */
  lemma NotInBegin(t: Text, at: int, k: int)
    requires OccursAt(t, BEGIN, at) && OccursAt(t, END, k) && at <= k
    requires at + |BEGIN| < |t| && t[at + |BEGIN|] == '\n'
    ensures k > at + |BEGIN|
  {
    NotBoth(t, at);
    MarkerShape();
    OccursChar(t, END, k, 0);
    if k < at + |BEGIN| { NoStraddle(t, BEGIN, at, k); }
  }

  lemma FrontHasNoMarkers(t: Text)
    requires HasMarkers(t)
    ensures var front := t[..Find(t, BEGIN)];
            forall m :: !OccursAt(front, BEGIN, m) && !OccursAt(front, END, m)
  {
    var i := Find(t, BEGIN);
    var front := t[..i];
    assert t == front + t[i..];
    forall m ensures !OccursAt(front, BEGIN, m) && !OccursAt(front, END, m) {
      if 0 <= m && m + |BEGIN| <= i { OccursInFront(front, t[i..], BEGIN, m); }
      if 0 <= m && m + |END| <= i { OccursInFront(front, t[i..], END, m); }
    }
  }

  /** Where the markers of a regenerated README are. */
  lemma BeginAfter(front: Text, rendering: Text, back: Text)
    requires forall m :: !OccursAt(front, BEGIN, m)
    ensures Find(Rewritten(front, rendering, back), BEGIN) == |front|
  {
    var u := Rewritten(front, rendering, back);
    PieceBounds(front, rendering, back);
    assert Find(u, BEGIN) != -1;
    NothingBefore(front, rendering, back, BEGIN, Find(u, BEGIN));
  }

  lemma EndAfter(front: Text, rendering: Text, back: Text)
    requires forall m :: !OccursAt(front, END, m)
    ensures var j, e := Find(Rewritten(front, rendering, back), END), |front| + |BEGIN| + 1 + |rendering|;
            |front| <= j <= e && (j == e <==> !Contains(rendering, END))
  {
    var u, e := Rewritten(front, rendering, back), |front| + |BEGIN| + 1 + |rendering|;
    var j := Find(u, END);
    PieceBounds(front, rendering, back);
    assert 0 <= j <= e;
    NothingBefore(front, rendering, back, END, j);
    if j < e {
      EndInside(front, rendering, back, j);
    } else {
      InsideMeansEarlier(front, rendering, back);
    }
  }

  lemma InsideMeansEarlier(front: Text, rendering: Text, back: Text)
    ensures Contains(rendering, END) ==>
              exists m ::
                && 0 <= m < |front| + |BEGIN| + 1 + |rendering|
                && OccursAt(Rewritten(front, rendering, back), END, m)
  {
    if Contains(rendering, END) {
      var k :| 0 <= k <= |rendering| && OccursAt(rendering, END, k);
      Regroup(front, rendering, back);
      OccursInside(Opening(front), rendering, Closing(back), END, k);
      MarkerShape();
      assert OccursAt(Rewritten(front, rendering, back), END, |Opening(front)| + k);
    }
  }

  /** Regenerating makes the next --check succeed, and a second regeneration
      change nothing, exactly when the rendering does not contain the END
      marker; otherwise the section stays stale for ever. Text before BEGIN and
      after END is preserved either way. */
  lemma RegenerateThenCheck(t: Text, rendering: Text)
    requires HasMarkers(t)
    ensures HasMarkers(Updated(t, rendering))
    ensures Updated(Updated(t, rendering), rendering) == Updated(t, rendering) <==> !Contains(rendering, END)
    ensures var u := Updated(t, rendering);
            && u == t[..Find(t, BEGIN)] + (BEGIN + "\n" + rendering + END) + t[Find(t, END) + |END|..]
            && u[..Find(t, BEGIN)] == t[..Find(t, BEGIN)]
            && |t[Find(t, END) + |END|..]| <= |u|
            && u[|u| - |t[Find(t, END) + |END|..]|..] == t[Find(t, END) + |END|..]
  {
    var i := Find(t, BEGIN);
    var front, back := t[..i], t[Find(t, END) + |END|..];
    var u := Updated(t, rendering);
    FrontHasNoMarkers(t);
    assert u == Rewritten(front, rendering, back);
    assert Block(rendering) == BEGIN + "\n" + rendering + END;
    BeginAfter(front, rendering, back);
    EndAfter(front, rendering, back);
    PieceBounds(front, rendering, back);
    var e := i + |BEGIN| + 1 + |rendering|;
    if Find(u, END) == e {
      assert Updated(u, rendering) == front + Block(rendering) + back;
    } else {
      assert |Updated(u, rendering)| == i + |Block(rendering)| + |u| - Find(u, END) - |END|;
    }
  }
}
