/** Cutting a long description short without leaving half a reference or half an address. */
module Clips {
  import opened Prelude

  const MAX_ANCHOR_TEXT := 1024
  const MAX_BRACKET_RUN := 1024

  predicate Opens(c: char) {
    c == '(' || c == '[' || c == '<'
  }

  predicate Closes(c: char) {
    c == ')' || c == ']' || c == '>'
  }

  predicate Separates(c: char) {
    c == ',' || c == ';'
  }

  /** The places of a text, byte by byte, where a white-space character starts: unicode.IsSpace. */
  type Spaces = nat -> bool

  /** Brackets opened less brackets closed from `from` up to `to`. */
  function Balance(s: string, from: nat, to: nat): int
    requires from <= to <= |s|
  {
    if from == to then 0
    else Balance(s, from, to - 1) + (if Opens(s[to - 1]) then 1 else if Closes(s[to - 1]) then -1 else 0)
  }

  predicate OpenSince(s: string, o: nat, i: nat)
    requires o < i <= |s|
  {
    forall j | o < j <= i :: Balance(s, o, j) > 0
  }

  /**
   * Place `i` lies inside a bracket run: a bracket no longer ago than a run may be, itself inside no
   * run, has not been closed since.
   */
  ghost predicate Inside(s: string, i: nat)
    requires i <= |s|
    decreases i
  {
    exists o | 0 <= o < i :: RunOpens(s, o, i)
  }

  ghost predicate RunOpens(s: string, o: nat, i: nat)
    requires o < i <= |s|
    decreases i, 0
  {
    Opens(s[o]) && i - o <= MAX_BRACKET_RUN && OpenSince(s, o, i) && !Inside(s, o)
  }

  /** A separator that lies in no bracket run. */
  ghost predicate Cuttable(s: string, i: nat)
    requires i < |s|
  {
    Separates(s[i]) && !Inside(s, i)
  }

  // What the loop knows at `i`: how deep it is, and in the run that started where.

  ghost predicate Deep(s: string, i: nat, depth: nat, start: nat)
    requires i <= |s|
  {
    && start < i && Opens(s[start]) && !Inside(s, start) && OpenSince(s, start, i)
    && depth == Balance(s, start, i) && i - start <= MAX_BRACKET_RUN + 1
  }

  /** Every bracket that could hide `i` has been closed, or is too long ago. */
  ghost predicate Shallow(s: string, i: nat)
    requires i <= |s|
  {
    forall o | 0 <= o < i :: Opens(s[o]) && !Inside(s, o) ==> i - o > MAX_BRACKET_RUN || !OpenSince(s, o, i)
  }

  lemma DeepIsInside(s: string, i: nat, depth: nat, start: nat)
    requires i <= |s| && Deep(s, i, depth, start) && i - start <= MAX_BRACKET_RUN
    ensures Inside(s, i)
  {
    assert RunOpens(s, start, i);
  }

  lemma ShallowIsOutside(s: string, i: nat)
    requires i <= |s| && Shallow(s, i)
    ensures !Inside(s, i)
  {
  }

  /** An open bracket hides every place up to where it is closed or grows too old, so no other run starts there. */
  lemma HidesOthers(s: string, o: nat, i: nat, j: nat)
    requires o < j <= i <= |s| && Opens(s[o]) && !Inside(s, o) && OpenSince(s, o, i) && j - o <= MAX_BRACKET_RUN
    ensures Inside(s, j)
  {
    assert RunOpens(s, o, j);
  }

  /** A run too old to hide anything leaves nothing else open that could. */
  lemma StrayOpener(s: string, i: nat, depth: nat, start: nat)
    requires i <= |s| && Deep(s, i, depth, start) && i - start > MAX_BRACKET_RUN
    ensures Shallow(s, i)
  {
    forall o | 0 <= o < i && Opens(s[o]) && !Inside(s, o) ensures i - o > MAX_BRACKET_RUN || !OpenSince(s, o, i) {
      if o > start && i - o <= MAX_BRACKET_RUN {
        HidesOthers(s, start, i, o);
      }
    }
  }

  /** The same once the run is closed. */
  lemma RunClosed(s: string, i: nat, start: nat)
    requires i < |s| && start < i && Opens(s[start]) && !Inside(s, start) && OpenSince(s, start, i)
    requires i - start <= MAX_BRACKET_RUN && Balance(s, start, i + 1) <= 0
    ensures Shallow(s, i + 1)
  {
    forall o | 0 <= o < i + 1 && Opens(s[o]) && !Inside(s, o) ensures i + 1 - o > MAX_BRACKET_RUN || !OpenSince(s, o, i + 1) {
      if o > start {
        if o <= i {
          HidesOthers(s, start, i, o);
        }
      } else if o < start && i + 1 - o <= MAX_BRACKET_RUN && OpenSince(s, o, i + 1) {
        HidesOthers(s, o, i + 1, start);
      }
    }
  }

  lemma ShallowStays(s: string, i: nat)
    requires i < |s| && Shallow(s, i) && !Opens(s[i])
    ensures Shallow(s, i + 1)
  {
    forall o | 0 <= o < i + 1 && Opens(s[o]) && !Inside(s, o) ensures i + 1 - o > MAX_BRACKET_RUN || !OpenSince(s, o, i + 1) {
      assert o < i;
    }
  }

  /**
   * lastOpenSeparator: the last separator before `n` that lies in no bracket run, or 0. A run longer
   * than an address can be is a stray bracket and stops hiding what follows.
   */
  method LastOpenSeparator(s: string, n: nat) returns (cut: nat)
    requires n <= |s|
    ensures cut == 0 || (cut < n && Cuttable(s, cut))
    ensures forall i | cut < i < n :: !Cuttable(s, i)
  {
    cut := 0;
    var depth, start := 0, 0;
    for i := 0 to n
      invariant cut == 0 || (cut < i && Cuttable(s, cut))
      invariant forall j | cut < j < i :: !Cuttable(s, j)
      invariant if depth > 0 then Deep(s, i, depth, start) else depth == 0 && Shallow(s, i)
    {
      if depth > 0 && i - start > MAX_BRACKET_RUN {
        StrayOpener(s, i, depth, start);
        depth := 0;
      }
      if depth == 0 {
        ShallowIsOutside(s, i);
      } else {
        DeepIsInside(s, i, depth, start);
      }
      if Opens(s[i]) {
        if depth == 0 {
          start := i;
          assert Balance(s, i, i) == 0 && Balance(s, i, i + 1) == 1;
        }
        depth := depth + 1;
      } else if Closes(s[i]) {
        if depth == 1 {
          RunClosed(s, i, start);
        } else if depth == 0 {
          ShallowStays(s, i);
        }
        depth := Max(depth - 1, 0);
      } else {
        if depth == 0 {
          ShallowStays(s, i);
          if Separates(s[i]) {
            cut := i;
          }
        }
      }
    }
  }

  /** cutBack, for whitespace: the last one at or before `n`, if there is one past the start. */
  method CutBack(s: string, n: nat, space: Spaces) returns (cut: Option<nat>)
    requires n < |s|
    ensures cut.Some? ==> 0 < cut.value <= n && space(cut.value) && forall i | cut.value < i <= n :: !space(i)
    ensures cut.None? ==> forall i | 0 < i <= n :: !space(i)
  {
    var i := n;
    while i > 0
      invariant 0 <= i <= n && forall j | i < j <= n :: !space(j)
    {
      if space(i) {
        return Some(i);
      }
      i := i - 1;
    }
    cut := None;
  }

  /** dropOpenAnchor: the text of an anchor the cut left open goes; `tag` is where its last opening tag ends. */
  function DropOpenAnchor(s: string, tag: Option<nat>, closed: bool): (r: string)
    ensures r <= s
    // Text after an open tag is kept only where it is too long to be an anchor's.
    ensures tag.Some? && !closed ==> |r| <= tag.value || |r| - tag.value > MAX_ANCHOR_TEXT
    ensures tag.None? || closed || |s| - tag.value > MAX_ANCHOR_TEXT ==> r == s
  {
    if tag.None? || tag.value > |s| || |s| - tag.value > MAX_ANCHOR_TEXT || closed then s else s[..tag.value]
  }

  /** Where clip cuts: at whitespace, and failing that at a separator outside every bracket run. */
  ghost predicate CutsAt(s: string, n: nat, space: Spaces, cut: nat)
    requires n < |s|
  {
    if exists i | 0 < i <= n :: space(i) then
      0 < cut <= n && space(cut) && forall i | cut < i <= n :: !space(i)
    else
      (cut == 0 || (cut < n && Cuttable(s, cut))) && forall i | cut < i < n :: !Cuttable(s, i)
  }

  /**
   * clip: a prefix of at most `n` places, cut where no word and no address is cut in half. `tag` and
   * `closed` are what the anchor patterns find in the part kept.
   */
  method Clip(s: string, n: nat, space: Spaces, tag: Option<nat>, closed: bool) returns (r: string)
    ensures r <= s
    ensures |s| <= n ==> r == s
    ensures |s| > n ==> exists cut | 0 <= cut <= n :: CutsAt(s, n, space, cut) && r == DropOpenAnchor(s[..cut], tag, closed)
  {
    if |s| <= n {
      return s;
    }
    var at := CutBack(s, n, space);
    var cut;
    if at.Some? {
      cut := at.value;
    } else {
      cut := LastOpenSeparator(s, n);
    }
    assert CutsAt(s, n, space, cut);
    r := DropOpenAnchor(s[..cut], tag, closed);
  }

  // ---- What that means for a text with one bracketed address ----

  predicate Bracket(c: char) {
    c in {'(', '[', '<', ')', ']', '>'}
  }

  /** No bracket from `from` up to `to`. */
  ghost predicate Plain(s: string, from: nat, to: nat)
    requires from <= to <= |s|
  {
    forall j | from <= j < to :: !Bracket(s[j])
  }

  lemma {:induction false} PlainBalance(s: string, o: nat, from: nat, to: nat)
    requires o <= from <= to <= |s| && Plain(s, from, to)
    ensures Balance(s, o, to) == Balance(s, o, from)
  {
    if from < to {
      PlainBalance(s, o, from, to - 1);
    }
  }

  /** In a text with no brackets before `i`, exactly a comma or a semicolon is a place to cut. */
  lemma PlainCuts(s: string, i: nat)
    requires i < |s| && Plain(s, 0, i)
    ensures Cuttable(s, i) <==> s[i] in {',', ';'}
  {
    assert Shallow(s, i);
    ShallowIsOutside(s, i);
  }

  /** An opening bracket at `o` and, unless it stays open, the first closing one after it at `c`. */
  ghost predicate OneAddress(s: string, o: nat, c: nat, i: nat)
    requires o < c <= i < |s|
  {
    Plain(s, 0, o) && s[o] in {'(', '[', '<'} && Plain(s, o + 1, c) && (c == i || (s[c] in {')', ']', '>'} && Plain(s, c + 1, i)))
  }

  /** A separator is one to cut at unless an address is open there that began at most the longest run ago. */
  lemma AddressHides(s: string, o: nat, c: nat, i: nat)
    requires o < c <= i < |s| && OneAddress(s, o, c, i)
    ensures Cuttable(s, i) <==> s[i] in {',', ';'} && !(c == i && i - o <= MAX_BRACKET_RUN)
  {
    assert Balance(s, o, o) == 0 && Balance(s, o, o + 1) == 1;
    assert Shallow(s, o);
    ShallowIsOutside(s, o);
    forall j | o < j <= c ensures Balance(s, o, j) == 1 { PlainBalance(s, o, o + 1, j); }
    if c == i && i - o <= MAX_BRACKET_RUN {
      assert RunOpens(s, o, i);
    } else {
      if c < i { assert Balance(s, o, c + 1) == 0; }
      assert Shallow(s, i);
      ShallowIsOutside(s, i);
    }
  }
}
