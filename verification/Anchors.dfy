/** Blanking the anchors of a description, so the text of a link is not read for references. */
module Anchors {

  /** Where a tag was found: from `start` up to `end`. */
  datatype Span = Span(start: nat, end: nat)

  /** Matches come in order and none is empty. */
  predicate Matches(spans: seq<Span>, n: nat) {
    && (forall i | 0 <= i < |spans| :: spans[i].start < spans[i].end <= n)
    && (forall i, j | 0 <= i < j < |spans| :: spans[i].end <= spans[j].start)
  }

  /** `c` is the first closing tag at or after `from`. */
  predicate FirstAfter(closes: seq<Span>, from: nat, c: nat) {
    c < |closes| && from <= closes[c].start && forall d | 0 <= d < c :: closes[d].start < from
  }

  /** No other opening tag starts between opening tag `i` and closing tag `c`. */
  predicate Undisturbed(opens: seq<Span>, closes: seq<Span>, i: nat, c: nat)
    requires i < |opens| && c < |closes|
  {
    forall k | i < k < |opens| :: closes[c].start <= opens[k].start
  }

  /** Opening tag `i` has its anchor, tags and all, lie over place `j`. */
  ghost predicate Covers(opens: seq<Span>, closes: seq<Span>, i: nat, j: nat)
    requires i < |opens|
  {
    exists c | 0 <= c < |closes| ::
      FirstAfter(closes, opens[i].end, c) && Undisturbed(opens, closes, i, c) && opens[i].start <= j < closes[c].end
  }

  ghost predicate InAnchor(opens: seq<Span>, closes: seq<Span>, j: nat) {
    exists i | 0 <= i < |opens| :: Covers(opens, closes, i, j)
  }

  /** What place `j` of `text` becomes once the anchors of the first `n` opening tags are blanked. */
  ghost function Blanked(text: string, opens: seq<Span>, closes: seq<Span>, n: nat, j: nat): char
    requires j < |text| && n <= |opens|
  {
    if text[j] != '\n' && exists i | 0 <= i < n :: Covers(opens, closes, i, j) then ' ' else text[j]
  }

  lemma CoversOnlyFirst(opens: seq<Span>, closes: seq<Span>, i: nat, c: nat, j: nat)
    requires i < |opens| && FirstAfter(closes, opens[i].end, c)
    ensures Covers(opens, closes, i, j) <==> Undisturbed(opens, closes, i, c) && opens[i].start <= j < closes[c].end
  {
    if d :| 0 <= d < |closes| && FirstAfter(closes, opens[i].end, d) && Undisturbed(opens, closes, i, d)
            && opens[i].start <= j < closes[d].end {
      assert d == c;
    }
  }

  /** Only the next opening tag needs a look: the ones after it start later still. */
  lemma NextTagDecides(opens: seq<Span>, closes: seq<Span>, n: nat, i: nat, c: nat)
    requires Matches(opens, n) && i < |opens| && c < |closes|
    ensures Undisturbed(opens, closes, i, c) <==> (i + 1 < |opens| ==> closes[c].start <= opens[i + 1].start)
  {
    if i + 1 < |opens| && closes[c].start <= opens[i + 1].start {
      forall k | i < k < |opens| ensures closes[c].start <= opens[k].start {
        assert k == i + 1 || opens[i + 1].end <= opens[k].start;
      }
    }
  }

  /** Spaces over everything but line breaks. */
  method Blank(out: array<char>, from: nat, to: nat)
    requires from <= to <= out.Length
    modifies out
    ensures forall j | 0 <= j < out.Length ::
              out[j] == if from <= j < to && old(out[j]) != '\n' then ' ' else old(out[j])
  {
    for j := from to to
      invariant forall k | 0 <= k < out.Length ::
                  out[k] == if from <= k < j && old(out[k]) != '\n' then ' ' else old(out[k])
    {
      if out[j] != '\n' {
        out[j] := ' ';
      }
    }
  }

  /**
   * blankAnchors: one sweep over both lists blanks exactly the places that lie in an anchor, line
   * breaks aside. `opens` and `closes` are what the two patterns match.
   */
  method BlankAnchors(text: string, opens: seq<Span>, closes: seq<Span>) returns (blanked: string)
    requires Matches(opens, |text|) && Matches(closes, |text|)
    ensures |blanked| == |text|
    ensures forall j | 0 <= j < |text| ::
              blanked[j] == if text[j] != '\n' && InAnchor(opens, closes, j) then ' ' else text[j]
  {
    var out := new char[|text|](i requires 0 <= i < |text| => text[i]);
    var next := 0;
    var i := 0;
    while i < |opens|
      invariant 0 <= i <= |opens| && next <= |closes|
      invariant forall d | 0 <= d < next :: i < |opens| ==> closes[d].start < opens[i].end
      invariant forall j | 0 <= j < |text| :: out[j] == Blanked(text, opens, closes, i, j)
    {
      while next < |closes| && closes[next].start < opens[i].end
        invariant next <= |closes|
        invariant forall d | 0 <= d < next :: closes[d].start < opens[i].end
      {
        next := next + 1;
      }
      if next == |closes| {
        NoneLeft(text, opens, closes, i);
        break;
      }
      OneTag(text, opens, closes, i, next);
      if i + 1 < |opens| {
        assert opens[i].end <= opens[i + 1].start < opens[i + 1].end;
      }
      if i + 1 < |opens| && opens[i + 1].start < closes[next].start {
        i := i + 1;
        continue;
      }
      Blank(out, opens[i].start, closes[next].end);
      next := next + 1;
      i := i + 1;
    }
    blanked := out[..];
  }

  /** With no closing tag left, no opening tag from `i` on has an anchor. */
  lemma NoneLeft(text: string, opens: seq<Span>, closes: seq<Span>, i: nat)
    requires Matches(opens, |text|) && i < |opens| && forall d | 0 <= d < |closes| :: closes[d].start < opens[i].end
    ensures forall j | 0 <= j < |text| :: Blanked(text, opens, closes, i, j) == Blanked(text, opens, closes, |opens|, j)
  {
    forall j | 0 <= j < |text| ensures Blanked(text, opens, closes, i, j) == Blanked(text, opens, closes, |opens|, j) {
      forall k | i <= k < |opens| ensures !Covers(opens, closes, k, j) {
        assert k == i || opens[i].end <= opens[k].start;
      }
      assert forall k | 0 <= k < |opens| && Covers(opens, closes, k, j) :: k < i;
    }
  }

  /** What opening tag `i` adds, `c` being the first closing tag after it. */
  lemma OneTag(text: string, opens: seq<Span>, closes: seq<Span>, i: nat, c: nat)
    requires Matches(opens, |text|) && Matches(closes, |text|) && i < |opens| && FirstAfter(closes, opens[i].end, c)
    ensures opens[i].start <= closes[c].end <= |text|
    ensures forall j | 0 <= j < |text| ::
              Blanked(text, opens, closes, i + 1, j)
              == if && (i + 1 < |opens| ==> closes[c].start <= opens[i + 1].start)
                    && opens[i].start <= j < closes[c].end && text[j] != '\n'
                 then ' ' else Blanked(text, opens, closes, i, j)
  {
    NextTagDecides(opens, closes, |text|, i, c);
    assert opens[i].start < opens[i].end <= closes[c].start < closes[c].end <= |text|;
    forall j | 0 <= j < |text|
      ensures Blanked(text, opens, closes, i + 1, j)
              == if Undisturbed(opens, closes, i, c) && opens[i].start <= j < closes[c].end && text[j] != '\n'
                 then ' ' else Blanked(text, opens, closes, i, j)
    {
      CoversOnlyFirst(opens, closes, i, c, j);
      assert (exists k | 0 <= k < i + 1 :: Covers(opens, closes, k, j))
        <==> Covers(opens, closes, i, j) || exists k | 0 <= k < i :: Covers(opens, closes, k, j);
    }
  }
}
