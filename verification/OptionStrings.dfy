/**
 Option strings such as "something:arg1,arg2" (kvutils/kvu_utils.cpp): how they are split
 into arguments, and what splitting makes of items that were quoted or escaped and joined.

 Iterators into a string are positions, the end iterator being the string's length.
 */
module OptionStrings {

  import opened Sequences

  const BACKSLASH: char := '\\'
  const QUOTE: char := '\"'

  // ------------------------------------------------------------------- splitting

  /** std::find: the first `c` at or after `from`, or the end. */
  function Find(s: string, from: nat, c: char): (r: nat)
    requires from <= |s|
    ensures from <= r <= |s|
    decreases |s| - from
  {
    if from == |s| || s[from] == c then from else Find(s, from + 1, c)
  }

  lemma {:induction false} FindFirst(s: string, from: nat, c: char, r: nat)
    requires from <= r <= |s|
    ensures Find(s, from, c) >= r <==> forall i :: from <= i < r ==> s[i] != c
    ensures Find(s, from, c) < |s| ==> s[Find(s, from, c)] == c
    decreases |s| - from
  {
    if from < |s| && s[from] != c {
      FindFirst(s, from + 1, c, if from < r then r else from + 1);
    }
  }

  predicate Escaped(s: string, i: nat)
    requires i <= |s|
  {
    0 < i && s[i - 1] == BACKSLASH
  }

  /** Position i does not hold a `v` that the search would stop at. */
  predicate NoStop(s: string, i: nat, v: char)
    requires i < |s|
  {
    s[i] == v ==> Escaped(s, i)
  }

  /** One round of the search: the next `v`, looked for behind a quoted section that comes before it. */
  function Candidate(s: string, start: nat, v: char): (r: nat)
    requires start <= |s|
    ensures start <= r <= |s|
  {
    var ret := Find(s, start, v);
    var open := Find(s, start, QUOTE);
    if open < ret then
      var close := Find(s, open + 1, QUOTE);
      if close < |s| then Find(s, close + 1, v) else ret
    else ret
  }

  /** kvu_priv_find_next_instance as a recursion over its rounds. */
  function NextInstance(s: string, start: nat, v: char): (r: nat)
    requires start <= |s|
    ensures start <= r <= |s|
    decreases |s| - start
  {
    if start == |s| then |s|
    else
      var r := Candidate(s, start, v);
      if r + 1 < |s| && Escaped(s, r) then NextInstance(s, r + 1, v) else r
  }

  lemma {:induction false} NextHits(s: string, start: nat, v: char)
    requires start <= |s|
    ensures NextInstance(s, start, v) < |s| ==> s[NextInstance(s, start, v)] == v
    decreases |s| - start
  {
    if start < |s| {
      CandidateHits(s, start, v);
      if Candidate(s, start, v) + 1 < |s| {
        NextHits(s, Candidate(s, start, v) + 1, v);
      }
    }
  }

  lemma CandidateHits(s: string, start: nat, v: char)
    requires start <= |s|
    ensures Candidate(s, start, v) < |s| ==> s[Candidate(s, start, v)] == v
  {
    var open := Find(s, start, QUOTE);
    FindFirst(s, start, v, start);
    if open < |s| && Find(s, open + 1, QUOTE) < |s| {
      var next := Find(s, open + 1, QUOTE) + 1;
      FindFirst(s, next, v, next);
    }
  }

  /** One round of the loop: find `v`, passing over a quoted section that comes first. */
  method FindCandidate(s: string, cur: nat, v: char) returns (ret: nat)
    requires cur <= |s|
    ensures ret == Candidate(s, cur, v)
  {
    ret := Find(s, cur, v);
    var nextquote := Find(s, cur, QUOTE);
    if nextquote < ret {
      nextquote := Find(s, nextquote + 1, QUOTE);
      if nextquote != |s| {
        ret := Find(s, nextquote + 1, v);
      }
    }
  }

  method FindNextInstance(s: string, start: nat, v: char) returns (ret: nat)
    requires start <= |s|
    ensures ret == NextInstance(s, start, v)
  {
    ghost var goal := NextInstance(s, start, v);
    var cur := start;
    ret := |s|;
    while cur != |s|
      invariant start <= cur <= |s|
      invariant cur == |s| ==> goal == ret
      invariant cur < |s| ==> goal == NextInstance(s, cur, v)
      decreases |s| - cur
    {
      ret := FindCandidate(s, cur, v);
      if ret != |s| && ret != 0 && s[ret - 1] == BACKSLASH {
        cur := ret + 1;
        continue;
      }
      break;
    }
  }

  /** With no quote before it, the first round finds the next `v`. */
  lemma CandidateUnquoted(s: string, start: nat, v: char, e: nat)
    requires start <= e <= |s| && v != QUOTE
    requires forall i :: start <= i < e ==> s[i] != QUOTE
    requires e < |s| ==> s[e] == v
    ensures Candidate(s, start, v) == Find(s, start, v) <= e
  {
    if e < |s| {
      FindFirst(s, start, v, e + 1);
    }
    FindFirst(s, start, QUOTE, e);
  }

  /** Nothing quoted up to `e`, and `e` the first unescaped `v`: that is where the search stops. */
  lemma {:induction false} NextUnquoted(s: string, start: nat, v: char, e: nat)
    requires start <= e <= |s| && v != QUOTE
    requires forall i :: start <= i < e ==> s[i] != QUOTE
    requires forall i :: start <= i < e ==> NoStop(s, i, v)
    requires e < |s| ==> s[e] == v && !Escaped(s, e)
    ensures NextInstance(s, start, v)
         == if e == |s| && start < |s| && s[|s| - 1] == v then |s| - 1 else e
    decreases e - start
  {
    if start < |s| {
      CandidateUnquoted(s, start, v, e);
      var ret := Find(s, start, v);
      FindFirst(s, start, v, ret);
      assert ret < e ==> NoStop(s, ret, v);
      if ret < e && ret + 1 < |s| {
        NextUnquoted(s, ret + 1, v, e);
      }
    }
  }

  /** A quoted section that reaches to `e` is passed over as a whole. */
  lemma NextQuoted(s: string, start: nat, v: char, e: nat)
    requires start + 2 <= e <= |s| && v != QUOTE
    requires s[start] == QUOTE && s[e - 1] == QUOTE
    requires forall i :: start < i < e - 1 ==> s[i] != QUOTE
    requires e < |s| ==> s[e] == v
    ensures NextInstance(s, start, v) == e
  {
    assert Find(s, start, QUOTE) == start;
    assert Find(s, start, v) != start;
    FindFirst(s, start + 1, QUOTE, e - 1);
    FindFirst(s, start + 1, QUOTE, e);
    assert Find(s, e, v) == e;
  }

  // ------------------------------------------- the search against its documentation

  /** What the search is documented to find: the first `v` that is neither escaped nor in a pair of quotes. */
  function Documented(s: string, i: nat, v: char): (r: nat)
    requires i <= |s|
    ensures i <= r <= |s|
    decreases |s| - i
  {
    if i == |s| then |s|
    else if s[i] == QUOTE && Find(s, i + 1, QUOTE) < |s| then Documented(s, Find(s, i + 1, QUOTE) + 1, v)
    else if s[i] == v && !Escaped(s, i) then i
    else Documented(s, i + 1, v)
  }

  predicate ThreeQuotes(s: string, i: nat, j: nat, k: nat)
    requires i < j < k < |s|
  {
    s[i] == QUOTE && s[j] == QUOTE && s[k] == QUOTE
  }

  /** From `start` on there is at most one pair of quotes and no further quote. */
  predicate OnePair(s: string, start: nat) {
    forall i, j, k :: start <= i < j < k < |s| ==> !ThreeQuotes(s, i, j, k)
  }

  lemma {:induction false} DocumentedSkips(s: string, a: nat, b: nat, v: char)
    requires a <= b <= |s|
    requires forall i :: a <= i < b ==> s[i] != QUOTE && s[i] != v
    ensures Documented(s, a, v) == Documented(s, b, v)
    decreases b - a
  {
    if a < b {
      DocumentedSkips(s, a + 1, b, v);
    }
  }

  /** Behind the quoted section there is no further quote, so the next `v` there is the documented one. */
  lemma BehindPair(s: string, start: nat, v: char, open: nat, close: nat)
    requires OnePair(s, start) && v != QUOTE
    requires start <= open < close < |s| && s[open] == QUOTE && s[close] == QUOTE
    ensures var ret := Find(s, close + 1, v);
            Documented(s, close + 1, v) == Documented(s, ret, v) && (ret == |s| ==> s[|s| - 1] != v)
  {
    var ret := Find(s, close + 1, v);
    FindFirst(s, close + 1, v, ret);
    forall k | close < k < |s| ensures s[k] != QUOTE {
      assert !ThreeQuotes(s, open, close, k);
    }
    DocumentedSkips(s, close + 1, ret, v);
  }

  /** A quoted section that comes before the next `v`. */
  lemma PairAgrees(s: string, start: nat, v: char, open: nat)
    requires OnePair(s, start) && v != QUOTE
    requires start <= |s| && open == Find(s, start, QUOTE) < Find(s, start, v)
    ensures var close := Find(s, open + 1, QUOTE);
            var ret := if close < |s| then Find(s, close + 1, v) else Find(s, start, v);
            Documented(s, start, v) == Documented(s, ret, v) && (ret == |s| ==> s[|s| - 1] != v)
  {
    UpToQuote(s, start, v, open);
    var close := Find(s, open + 1, QUOTE);
    FindFirst(s, open + 1, QUOTE, close);
    if close < |s| {
      BehindPair(s, start, v, open, close);
    } else {
      LoneQuote(s, start, v, open);
    }
  }

  /** A quote that is never closed hides nothing. */
  lemma LoneQuote(s: string, start: nat, v: char, open: nat)
    requires v != QUOTE && start <= open < |s| && open < Find(s, start, v)
    requires s[open] == QUOTE && Find(s, open + 1, QUOTE) == |s|
    ensures var ret := Find(s, start, v);
            Documented(s, open, v) == Documented(s, ret, v) && (ret == |s| ==> s[|s| - 1] != v)
  {
    NoPairAgrees(s, open + 1, v);
    FindFrom(s, start, open + 1, v);
  }

  lemma UpToQuote(s: string, start: nat, v: char, open: nat)
    requires start <= |s| && open == Find(s, start, QUOTE) < Find(s, start, v)
    ensures Documented(s, start, v) == Documented(s, open, v) && s[open] == QUOTE
  {
    FindFirst(s, start, v, open);
    FindFirst(s, start, QUOTE, open);
    DocumentedSkips(s, start, open, v);
  }

  lemma FindFrom(s: string, a: nat, b: nat, c: char)
    requires a <= b <= |s| && b <= Find(s, a, c)
    ensures Find(s, b, c) == Find(s, a, c)
    decreases b - a
  {
    if a < b {
      FindFrom(s, a + 1, b, c);
    }
  }

  /** No quote before the next `v`. */
  lemma NoPairAgrees(s: string, start: nat, v: char)
    requires v != QUOTE && start <= |s|
    requires Find(s, start, QUOTE) >= Find(s, start, v)
    ensures var ret := Find(s, start, v);
            Documented(s, start, v) == Documented(s, ret, v) && (0 < |s| && start < |s| && ret == |s| ==> s[|s| - 1] != v)
  {
    var ret := Find(s, start, v);
    FindFirst(s, start, v, ret);
    FindFirst(s, start, QUOTE, ret);
    DocumentedSkips(s, start, ret, v);
  }

  /** One round passes over nothing that the documentation would stop at. */
  lemma RoundAgrees(s: string, start: nat, v: char)
    requires start < |s| && v != QUOTE && OnePair(s, start)
    ensures var ret := Candidate(s, start, v);
            Documented(s, start, v) == Documented(s, ret, v) && (ret == |s| ==> s[|s| - 1] != v)
  {
    var open := Find(s, start, QUOTE);
    if open < Find(s, start, v) {
      PairAgrees(s, start, v, open);
    } else {
      NoPairAgrees(s, start, v);
    }
  }

  /** With at most one pair of quotes the search keeps its promise, but for an escaped last character. */
  lemma {:induction false} SearchAsDocumented(s: string, start: nat, v: char)
    requires start <= |s| && v != QUOTE && OnePair(s, start)
    ensures var d := Documented(s, start, v);
            NextInstance(s, start, v)
            == if d == |s| && start < |s| && s[|s| - 1] == v && Escaped(s, |s| - 1) then |s| - 1 else d
    decreases |s| - start
  {
    if start < |s| {
      RoundAgrees(s, start, v);
      CandidateHits(s, start, v);
      var ret := Candidate(s, start, v);
      if ret + 1 < |s| && Escaped(s, ret) {
        SearchAsDocumented(s, ret + 1, v);
      }
    }
  }

  /** Pairing the quotes from `b` on, position `i` lies between a quote and its partner. */
  predicate Inside(s: string, b: nat, i: nat)
    requires b <= |s|
    decreases |s| - b
  {
    var open := Find(s, b, QUOTE);
    open < i && open < |s| &&
    var close := Find(s, open + 1, QUOTE);
    close < |s| && (i < close || Inside(s, close + 1, i))
  }

  /** The documented search gets to the first `v` at or after `b` exactly if that is not inside a pair of quotes. */
  lemma {:induction false} FirstReached(s: string, b: nat, v: char, r: nat)
    requires b <= |s| && v != QUOTE && r == Find(s, b, v)
    ensures Reaches(s, b, v, r)
    decreases |s| - b
  {
    FindFirst(s, b, v, b);
    var open := Find(s, b, QUOTE);
    if open >= r {
      NoPairAgrees(s, b, v);
    } else if Find(s, open + 1, QUOTE) < |s| {
      var close := Find(s, open + 1, QUOTE);
      if close < r {
        FindFrom(s, b, close + 1, v);
        FirstReached(s, close + 1, v, r);
        ReachedBehind(s, b, v, r, open, close);
      } else {
        HiddenByPair(s, b, v, r, open, close);
      }
    } else {
      UpToQuote(s, b, v, open);
      LoneQuote(s, b, v, open);
    }
  }

  /** The documented search that starts at `b` gets to `r`, or beyond it if `r` is inside a pair of quotes. */
  predicate Reaches(s: string, b: nat, v: char, r: nat)
    requires b <= |s| && r <= |s|
  {
    if Inside(s, b, r) then Documented(s, b, v) > r else Documented(s, b, v) == Documented(s, r, v)
  }

  lemma ReachedBehind(s: string, b: nat, v: char, r: nat, open: nat, close: nat)
    requires b <= |s| && r == Find(s, b, v) && open == Find(s, b, QUOTE) < r
    requires close == Find(s, open + 1, QUOTE) < r && close < |s| && Reaches(s, close + 1, v, r)
    ensures Reaches(s, b, v, r)
  {
    UpToQuote(s, b, v, open);
  }

  lemma HiddenByPair(s: string, b: nat, v: char, r: nat, open: nat, close: nat)
    requires b <= |s| && v != QUOTE && r == Find(s, b, v) && open == Find(s, b, QUOTE) < r
    requires close == Find(s, open + 1, QUOTE) < |s| && r <= close
    ensures Reaches(s, b, v, r)
  {
    UpToQuote(s, b, v, open);
    FindFirst(s, b, v, b);
    FindFirst(s, open + 1, QUOTE, close);
  }

  /** A round that passes over a quoted section, and what follows from the section's end. */
  lemma RoundBehindPair(s: string, b: nat, v: char)
    requires b <= |s|
    ensures var open := Find(s, b, QUOTE);
            open < Find(s, b, v) ==>
              var close := Find(s, open + 1, QUOTE);
              close < |s| ==>
                && Candidate(s, b, v) == Find(s, close + 1, v)
                && Documented(s, b, v) == Documented(s, close + 1, v)
                && forall i :: close < i ==> (Inside(s, b, i) <==> Inside(s, close + 1, i))
  {
    var open := Find(s, b, QUOTE);
    if open < Find(s, b, v) {
      UpToQuote(s, b, v, open);
    }
  }

  /** A round of the search stops where the documented one gets to, exactly if that is not inside a further pair. */
  lemma RoundReached(s: string, b: nat, v: char)
    requires b <= |s| && v != QUOTE
    ensures Reaches(s, b, v, Candidate(s, b, v))
  {
    RoundBehindPair(s, b, v);
    var open := Find(s, b, QUOTE);
    if open < Find(s, b, v) && Find(s, open + 1, QUOTE) < |s| {
      FirstReached(s, Find(s, open + 1, QUOTE) + 1, v, Candidate(s, b, v));
    } else {
      FirstReached(s, b, v, Find(s, b, v));
    }
  }

  /** Counting the pairs anew from behind a position outside them gives the same pairs. */
  lemma {:induction false} InsideShift(s: string, b: nat, r: nat, i: nat)
    requires b <= r < i && r < |s| && s[r] != QUOTE && !Inside(s, b, r)
    ensures Inside(s, b, i) <==> Inside(s, r + 1, i)
    decreases |s| - b
  {
    var open := Find(s, b, QUOTE);
    FindFirst(s, b, QUOTE, r + 1);
    if open > r {
      FindFrom(s, b, r + 1, QUOTE);
    } else if Find(s, open + 1, QUOTE) < |s| {
      var close := Find(s, open + 1, QUOTE);
      FindFirst(s, b, QUOTE, open);
      PairBefore(s, b, r, open, close);
      InsideShift(s, close + 1, r, i);
      InsideBehind(s, b, i, open, close);
    } else {
      InsideNone(s, b, r, i, open);
    }
  }

  lemma InsideBehind(s: string, b: nat, i: nat, open: nat, close: nat)
    requires b <= |s| && open == Find(s, b, QUOTE) < |s| && close == Find(s, open + 1, QUOTE) < |s| && close < i
    ensures Inside(s, b, i) <==> Inside(s, close + 1, i)
  {
  }

  /** With a lone quote before `r` there are no pairs at all. */
  lemma InsideNone(s: string, b: nat, r: nat, i: nat, open: nat)
    requires b <= r < i && r < |s| && s[r] != QUOTE
    requires open == Find(s, b, QUOTE) <= r && Find(s, open + 1, QUOTE) == |s|
    ensures !Inside(s, b, i) && !Inside(s, r + 1, i)
  {
    FindFirst(s, b, QUOTE, open);
    FindFrom(s, open + 1, r + 1, QUOTE);
  }

  /** A pair that starts before a position outside all pairs ends before it, too. */
  lemma PairBefore(s: string, b: nat, r: nat, open: nat, close: nat)
    requires b <= r < |s| && s[r] != QUOTE && !Inside(s, b, r)
    requires open == Find(s, b, QUOTE) < r && close == Find(s, open + 1, QUOTE) < |s|
    ensures close < r && !Inside(s, close + 1, r)
  {
    FindFirst(s, open + 1, QUOTE, close);
  }

  lemma {:induction false} DocumentedUnescaped(s: string, b: nat, v: char)
    requires b <= |s|
    ensures Documented(s, b, v) < |s| ==> !Escaped(s, Documented(s, b, v))
    decreases |s| - b
  {
    if b < |s| {
      if s[b] == QUOTE && Find(s, b + 1, QUOTE) < |s| {
        DocumentedUnescaped(s, Find(s, b + 1, QUOTE) + 1, v);
      } else if s[b] != v || Escaped(s, b) {
        DocumentedUnescaped(s, b + 1, v);
      }
    }
  }

  /** No escaped `v` from `b` on stands inside a pair of quotes. */
  predicate EscapesOutside(s: string, b: nat, v: char)
    requires b <= |s|
  {
    forall i :: b <= i < |s| ==> NoStop(s, i, v) && s[i] == v ==> !Inside(s, b, i)
  }

  /**
   With any number of quotes and no escape inside them, the search keeps its promise exactly if
   the place it stops at is not inside a pair of quotes, and not an escaped last character.
   */
  lemma {:induction false} SearchExactly(s: string, b: nat, v: char)
    requires b <= |s| && v != QUOTE && EscapesOutside(s, b, v)
    ensures var r := NextInstance(s, b, v);
            Documented(s, b, v) == r <==> !Inside(s, b, r) && !(r < |s| && Escaped(s, r))
    decreases |s| - b
  {
    if b < |s| {
      var c := Candidate(s, b, v);
      CandidateHits(s, b, v);
      RoundReached(s, b, v);
      DocumentedUnescaped(s, b, v);
      if c + 1 < |s| && Escaped(s, c) {
        assert NoStop(s, c, v) && !Inside(s, b, c);
        EscapesStayOutside(s, b, v, c);
        SearchExactly(s, c + 1, v);
        InsideShift(s, b, c, NextInstance(s, c + 1, v));
      }
    }
  }

  lemma EscapesStayOutside(s: string, b: nat, v: char, c: nat)
    requires b <= c < |s| && s[c] != QUOTE && !Inside(s, b, c) && EscapesOutside(s, b, v)
    ensures EscapesOutside(s, c + 1, v)
  {
    forall i | c + 1 <= i < |s| && NoStop(s, i, v) && s[i] == v ensures !Inside(s, c + 1, i) {
      InsideShift(s, b, c, i);
    }
  }

  /** Without escapes one round decides: the first `v` behind the first quoted section must not be inside a further one. */
  lemma SearchUnescaped(s: string, b: nat, v: char)
    requires b <= |s| && v != QUOTE
    requires forall i :: b <= i < |s| && s[i] == v ==> !Escaped(s, i)
    ensures Documented(s, b, v) == NextInstance(s, b, v) <==> !Inside(s, b, Candidate(s, b, v))
  {
    if b < |s| {
      CandidateHits(s, b, v);
      RoundReached(s, b, v);
    }
  }

  /** A place the documented search may stop at. */
  predicate Visible(s: string, b: nat, v: char, i: nat)
    requires b <= |s| && i < |s|
  {
    s[i] == v && !Escaped(s, i) && !Inside(s, b, i)
  }

  /** `r` is the first such place, or the end if there is none. */
  predicate FirstVisible(s: string, b: nat, v: char, r: nat)
    requires b <= |s| && r <= |s|
  {
    (r < |s| ==> Visible(s, b, v, r)) && forall i :: b <= i < r ==> !Visible(s, b, v, i)
  }

  /** Unless a pair begins at `b`, the pairs from `b` on are those from the next position on. */
  lemma InsideNext(s: string, b: nat, i: nat)
    requires b < |s| && (s[b] == QUOTE ==> Find(s, b + 1, QUOTE) == |s|)
    ensures Inside(s, b, i) <==> Inside(s, b + 1, i)
  {
  }

  lemma InsidePair(s: string, b: nat, i: nat)
    requires b < |s| && s[b] == QUOTE && Find(s, b + 1, QUOTE) < |s| && b < i
    ensures var close := Find(s, b + 1, QUOTE);
            Inside(s, b, i) <==> i < close || Inside(s, close + 1, i)
  {
    assert Find(s, b, QUOTE) == b;
  }

  lemma FirstBehindPair(s: string, b: nat, v: char, d: nat, close: nat)
    requires b < |s| && v != QUOTE && s[b] == QUOTE && close == Find(s, b + 1, QUOTE) < d <= |s|
    requires FirstVisible(s, close + 1, v, d)
    ensures FirstVisible(s, b, v, d)
  {
    FindFirst(s, b + 1, QUOTE, close);
    if d < |s| {
      InsidePair(s, b, d);
    }
    forall i | b <= i < d ensures !Visible(s, b, v, i) {
      assert close < i ==> !Visible(s, close + 1, v, i);
      HiddenBehindPair(s, b, v, i, close);
    }
  }

  lemma HiddenBehindPair(s: string, b: nat, v: char, i: nat, close: nat)
    requires b <= i < |s| && v != QUOTE && s[b] == QUOTE && close == Find(s, b + 1, QUOTE) < |s| && s[close] == QUOTE
    requires close < i ==> !Visible(s, close + 1, v, i)
    ensures !Visible(s, b, v, i)
  {
    if b < i {
      InsidePair(s, b, i);
    }
  }

  lemma FirstFromNext(s: string, b: nat, v: char, d: nat)
    requires b < d <= |s| && (s[b] == QUOTE ==> Find(s, b + 1, QUOTE) == |s|)
    requires (s[b] != v || Escaped(s, b)) && FirstVisible(s, b + 1, v, d)
    ensures FirstVisible(s, b, v, d)
  {
    if d < |s| {
      InsideNext(s, b, d);
    }
    forall i | b <= i < d ensures !Visible(s, b, v, i) {
      InsideNext(s, b, i);
      assert b < i ==> !Visible(s, b + 1, v, i);
    }
  }

  /** The documented search finds the first place that is neither escaped nor in a pair of quotes. */
  lemma {:induction false} DocumentedFirst(s: string, b: nat, v: char)
    requires b <= |s| && v != QUOTE
    ensures FirstVisible(s, b, v, Documented(s, b, v))
    decreases |s| - b
  {
    if b < |s| {
      var close := Find(s, b + 1, QUOTE);
      if s[b] == QUOTE && close < |s| {
        DocumentedFirst(s, close + 1, v);
        FirstBehindPair(s, b, v, Documented(s, b, v), close);
      } else if s[b] != v || Escaped(s, b) {
        DocumentedFirst(s, b + 1, v);
        FirstFromNext(s, b, v, Documented(s, b, v));
      }
    }
  }

  /** For every string, the search keeps its promise exactly if it stops at the first visible place. */
  lemma SearchFirst(s: string, b: nat, v: char)
    requires b <= |s| && v != QUOTE
    ensures Documented(s, b, v) == NextInstance(s, b, v) <==> FirstVisible(s, b, v, NextInstance(s, b, v))
  {
    DocumentedFirst(s, b, v);
    if FirstVisible(s, b, v, NextInstance(s, b, v)) {
      OneFirst(s, b, v, Documented(s, b, v), NextInstance(s, b, v));
    }
  }

  lemma OneFirst(s: string, b: nat, v: char, d: nat, r: nat)
    requires b <= d <= |s| && b <= r <= |s| && FirstVisible(s, b, v, d) && FirstVisible(s, b, v, r)
    ensures d == r
  {
  }

  /** A second quoted section before the next separator is looked into. */
  lemma SecondQuotesIgnored()
    ensures var s := "\"\"\",\"";
            NextInstance(s, 0, ',') == 3 && Documented(s, 0, ',') == |s|
  {
    var s := "\"\"\",\"";
    assert Find(s, 1, QUOTE) == 1 && Find(s, 0, QUOTE) == 0;
    assert Find(s, 2, ',') == 3 by { assert Find(s, 3, ',') == 3; }
    FindFirst(s, 0, ',', 1);
    assert Find(s, 3, QUOTE) == 4 by { assert Find(s, 4, QUOTE) == 4; }
    assert Documented(s, 5, ',') == 5;
    assert Documented(s, 2, ',') == 5;
  }

  // ------------------------------------------------------------- stripping escapes

  /** Whether `s` has a backslash right before a `c` at position i. */
  predicate EscapeAt(s: string, i: nat, c: char) {
    i + 1 < |s| && s[i] == BACKSLASH && s[i + 1] == c
  }

  /** One pass from the right: a backslash goes when what is left behind it starts with `c`. */
  function Unescaped(s: string, c: char): string {
    if s == "" then ""
    else
      var t := Unescaped(s[1..], c);
      if s[0] == BACKSLASH && t != "" && t[0] == c then t else [s[0]] + t
  }

  /** input->find("\\" + c). */
  function FindEscape(s: string, from: nat, c: char): (r: nat)
    requires from <= |s|
    ensures from <= r <= |s|
    ensures forall i :: from <= i < r ==> !EscapeAt(s, i, c)
    ensures r < |s| ==> EscapeAt(s, r, c)
    decreases |s| - from
  {
    if from == |s| || EscapeAt(s, from, c) then from else FindEscape(s, from + 1, c)
  }

  /** The first escape may be taken out beforehand. */
  lemma {:induction false} UnescapedStep(s: string, k: nat, c: char)
    requires EscapeAt(s, k, c) && c != BACKSLASH
    ensures Unescaped(s[..k] + s[k + 1..], c) == Unescaped(s, c)
  {
    var t := s[..k] + s[k + 1..];
    if k == 0 {
      assert t == s[1..];
      assert t[0] == c;
      assert Unescaped(t, c)[0] == c;
    } else {
      assert t[1..] == s[1..][..k - 1] + s[1..][k..];
      assert t[0] == s[0];
      assert EscapeAt(s[1..], k - 1, c);
      UnescapedStep(s[1..], k - 1, c);
    }
  }

  lemma {:induction false} UnescapedNone(s: string, c: char)
    requires forall i :: 0 <= i < |s| ==> !EscapeAt(s, i, c)
    ensures Unescaped(s, c) == s
  {
    if s != "" {
      forall i | 0 <= i < |s[1..]| ensures !EscapeAt(s[1..], i, c) {
        assert !EscapeAt(s, i + 1, c);
      }
      UnescapedNone(s[1..], c);
      assert !EscapeAt(s, 0, c);
      assert s == [s[0]] + s[1..];
    }
  }

  /** kvu_priv_strip_escapes: searching and replacing until nothing is found amounts to the one pass. */
  method StripEscapes(input: string, c: char) returns (s: string)
    requires c != BACKSLASH
    ensures s == Unescaped(input, c)
    ensures forall i :: 0 <= i < |s| ==> !EscapeAt(s, i, c)
  {
    s := input;
    var pos := FindEscape(s, 0, c);
    while pos != |s|
      invariant pos == FindEscape(s, 0, c)
      invariant Unescaped(s, c) == Unescaped(input, c)
      decreases |s|
    {
      UnescapedStep(s, pos, c);
      s := s[..pos] + s[pos + 1..];
      pos := FindEscape(s, 0, c);
    }
    UnescapedNone(s, c);
  }

  /** kvu_string_strip_outer_quotes. */
  function StripOuterQuotes(s: string): (r: string)
    ensures r == s || s == [QUOTE] + r + [QUOTE]
  {
    if |s| >= 2 && s[0] == QUOTE && s[|s| - 1] == QUOTE then s[1..|s| - 1] else s
  }

  // --------------------------------------------------------------- the argument list

  /** What becomes of the text between two separators. */
  function Clean(target: string): string {
    StripOuterQuotes(Unescaped(Unescaped(target, ','), ':'))
  }

  function CleanAll(ps: seq<string>): (r: seq<string>)
    ensures |r| == |ps|
  {
    if ps == [] then [] else [Clean(ps[0])] + CleanAll(ps[1..])
  }

  /** The texts between the separators from `b` on. */
  function PiecesFrom(s: string, b: nat): seq<string>
    requires b <= |s|
    decreases |s| - b, 1
  {
    if b == |s| then []
    else
      var e := NextInstance(s, b, ',');
      [s[b..e]] + PiecesAfter(s, e)
  }

  /** How they go on behind the separator at `e`: a last empty argument counts. */
  function PiecesAfter(s: string, e: nat): seq<string>
    requires e <= |s|
    decreases |s| - e, 0
  {
    if e == |s| then []
    else if e + 1 == |s| then [""]
    else PiecesFrom(s, e + 1)
  }

  function ArgumentsFrom(s: string, b: nat): seq<string>
    requires b <= |s|
  {
    CleanAll(PiecesFrom(s, b))
  }

  /** kvu_get_arguments as a function. */
  function Arguments(s: string): seq<string> {
    var colon := NextInstance(s, 0, ':');
    ArgumentsFrom(s, if colon == |s| then 0 else colon + 1)
  }

  /** Cleans the text between two separators. */
  method CleanTarget(piece: string) returns (target: string)
    ensures target == Clean(piece)
  {
    target := StripEscapes(piece, ',');
    target := StripEscapes(target, ':');
    target := StripOuterQuotes(target);
  }

  lemma PiecesUnfold(s: string, b: nat, e: nat)
    requires b < |s| && e == NextInstance(s, b, ',')
    ensures PiecesFrom(s, b) == [s[b..e]] + PiecesAfter(s, e)
  {
  }

  lemma PiecesStep(s: string, b: nat, e: nat, sofar: seq<string>)
    requires b < |s| && e == NextInstance(s, b, ',')
    ensures e == |s| ==> sofar + PiecesFrom(s, b) == sofar + [s[b..e]]
    ensures e + 1 == |s| ==> sofar + PiecesFrom(s, b) == sofar + [s[b..e]] + [""]
    ensures e + 1 < |s| ==> sofar + PiecesFrom(s, b) == sofar + [s[b..e]] + PiecesFrom(s, e + 1)
  {
    PiecesUnfold(s, b, e);
    ConcatAssoc(sofar, [s[b..e]], PiecesAfter(s, e));
    NothingMore(sofar + [s[b..e]]);
  }

  lemma NothingMore(ps: seq<string>)
    ensures ps + [] == ps
  {
  }

  lemma {:induction false} CleanSnoc(ps: seq<string>, p: string)
    ensures CleanAll(ps + [p]) == CleanAll(ps) + [Clean(p)]
    ensures Clean("") == ""
  {
    if ps == [] {
      assert ps + [p] == [p];
    } else {
      assert (ps + [p])[1..] == ps[1..] + [p];
      CleanSnoc(ps[1..], p);
    }
  }

  /** The argument at `b`, and the separator it ends at. */
  method NextArgument(argu: string, b: nat) returns (e: nat, target: string)
    requires b <= |argu|
    ensures e == NextInstance(argu, b, ',') && target == Clean(argu[b..e])
    ensures e < |argu| ==> argu[e] == ','
  {
    e := FindNextInstance(argu, b, ',');
    NextHits(argu, b, ',');
    target := CleanTarget(argu[b..e]);
  }

  /** The loop over the arguments, from position `start` on. */
  method SplitArguments(argu: string, start: nat) returns (resvec: seq<string>)
    requires start <= |argu|
    ensures resvec == CleanAll(PiecesFrom(argu, start))
  {
    ghost var goal := PiecesFrom(argu, start);
    ghost var done := [];
    resvec := [];
    var b := start;
    assert goal == done + goal;
    while b != |argu|
      invariant b <= |argu|
      invariant resvec == CleanAll(done)
      invariant b == |argu| ==> goal == done
      invariant b < |argu| ==> goal == done + PiecesFrom(argu, b)
      decreases |argu| - b
    {
      var e, target := NextArgument(argu, b);
      PiecesStep(argu, b, e, done);
      CleanSnoc(done, argu[b..e]);
      done := done + [argu[b..e]];
      resvec := resvec + [target];
      if e == |argu| {
        break;
      }
      b := e + 1;
      if b == |argu| && argu[e] == ',' {
        CleanSnoc(done, "");
        done := done + [""];
        resvec := resvec + [""];
      }
    }
  }

  method GetArguments(argu: string) returns (resvec: seq<string>)
    ensures resvec == Arguments(argu)
  {
    var b := FindNextInstance(argu, 0, ':');
    if b == |argu| {
      if |argu| == 0 {
        return [];
      }
      b := 0;
    } else {
      b := b + 1;
    }
    resvec := SplitArguments(argu, b);
  }

  // --------------------------------------------------------- printed lists read back

  /** kvu_vector_to_string, as a function. */
  function Join(items: seq<string>, separator: string): string {
    if |items| == 0 then ""
    else if |items| == 1 then items[0]
    else items[0] + separator + Join(items[1..], separator)
  }

  predicate QuotedToken(p: string) {
    |p| >= 2 && p[0] == QUOTE && p[|p| - 1] == QUOTE && forall i :: 0 < i < |p| - 1 ==> p[i] != QUOTE
  }

  /** Every `c` in `p` is escaped within `p`. */
  predicate Escapes(p: string, c: char) {
    forall i :: 0 <= i < |p| ==> NoStop(p, i, c)
  }

  predicate PlainToken(p: string) {
    && (forall i :: 0 <= i < |p| ==> p[i] != QUOTE)
    && Escapes(p, ',')
    && (p != "" ==> p[|p| - 1] != BACKSLASH)
  }

  predicate Token(p: string) {
    QuotedToken(p) || PlainToken(p)
  }

  predicate EndsWith(p: string, c: char) {
    p != "" && p[|p| - 1] == c
  }

  /** A token is recognised where it stands, up to the separator or the end of the string. */
  lemma TokenEnds(s: string, b: nat, p: string)
    requires Token(p) && b + |p| <= |s| && s[b..b + |p|] == p && !Escaped(s, b)
    requires b + |p| < |s| ==> s[b + |p|] == ','
    ensures NextInstance(s, b, ',')
         == if b + |p| == |s| && EndsWith(p, ',') then |s| - 1 else b + |p|
  {
    var e := b + |p|;
    assert forall i :: b <= i < e ==> s[i] == p[i - b];
    if QuotedToken(p) {
      NextQuoted(s, b, ',', e);
    } else {
      forall i | b <= i < e ensures NoStop(s, i, ',') {
        assert NoStop(p, i - b, ',');
      }
      NextUnquoted(s, b, ',', e);
    }
  }

  predicate Tokens(ps: seq<string>) {
    forall p <- ps :: Token(p)
  }

  predicate LoneEmpty(ps: seq<string>) {
    |ps| == 1 && |ps[0]| == 0
  }

  /** What splitting makes of joined tokens. */
  predicate Outcome(got: seq<string>, ps: seq<string>)
    requires ps != []
  {
    if LoneEmpty(ps) then |got| == 0
    else if EndsWith(ps[|ps| - 1], ',') then |got| == |ps| + 1
    else got == ps
  }

  /** One more token in front; behind it, a lone empty token does come out. */
  lemma OutcomeStep(got: seq<string>, after: seq<string>, p: string, rest: seq<string>)
    requires rest != [] && Outcome(got, rest)
    requires LoneEmpty(rest) ==> after == [""]
    requires !LoneEmpty(rest) ==> after == got
    ensures Outcome([p] + after, [p] + rest)
  {
    assert ([p] + rest)[|rest|] == rest[|rest| - 1];
    if LoneEmpty(rest) {
      assert rest == [""];
    }
  }

  /** The tokens stand in `s` from `b` to its end, with commas between them. */
  predicate Laid(s: string, b: nat, ps: seq<string>)
    decreases |ps|
  {
    && ps != [] && Token(ps[0])
    && b + |ps[0]| <= |s| && s[b..b + |ps[0]|] == ps[0] && !Escaped(s, b)
    && if |ps| == 1 then b + |ps[0]| == |s|
       else b + |ps[0]| < |s| && s[b + |ps[0]|] == ',' && Laid(s, b + |ps[0]| + 1, ps[1..])
  }

  /**
   Splitting undoes joining, token by token. Two cases are different: a lone empty token
   vanishes, and an escaped comma at the very end is taken for a separator.
   */
  lemma SplitJoined(s: string, b: nat, ps: seq<string>)
    requires ps != [] && Tokens(ps)
    requires b <= |s| && s[b..] == Join(ps, ",") && !Escaped(s, b)
    ensures Outcome(PiecesFrom(s, b), ps)
  {
    JoinLaid(s, b, ps);
    SplitLaid(s, b, ps);
  }

  lemma {:induction false} JoinLaid(s: string, b: nat, ps: seq<string>)
    requires ps != [] && Tokens(ps)
    requires b <= |s| && s[b..] == Join(ps, ",") && !Escaped(s, b)
    ensures Laid(s, b, ps)
    decreases |ps|
  {
    if |ps| == 1 {
      assert s[b..b + |ps[0]|] == s[b..];
    } else {
      JoinedTail(s, b, ps);
      JoinLaid(s, b + |ps[0]| + 1, ps[1..]);
    }
  }

  lemma {:induction false} SplitLaid(s: string, b: nat, ps: seq<string>)
    requires Laid(s, b, ps)
    ensures Outcome(PiecesFrom(s, b), ps)
    decreases |ps|
  {
    if |ps| == 1 {
      LaidLast(s, b, ps);
    } else {
      SplitLaid(s, b + |ps[0]| + 1, ps[1..]);
      LaidMore(s, b, ps);
    }
  }

  lemma LaidLast(s: string, b: nat, ps: seq<string>)
    requires Laid(s, b, ps) && |ps| == 1
    ensures Outcome(PiecesFrom(s, b), ps)
  {
    TokenEnds(s, b, ps[0]);
    SplitLast(s, b, ps[0]);
    assert [ps[0]] == ps;
  }

  lemma LaidMore(s: string, b: nat, ps: seq<string>)
    requires Laid(s, b, ps) && |ps| > 1 && b + |ps[0]| + 1 <= |s|
    requires Outcome(PiecesFrom(s, b + |ps[0]| + 1), ps[1..])
    ensures Outcome(PiecesFrom(s, b), ps)
  {
    LaidHead(s, b, ps);
    LaidEmpty(s, b + |ps[0]| + 1, ps[1..]);
    HeadTail(ps);
    SplitStep(s, b, ps[0], ps[1..]);
  }

  lemma HeadTail(ps: seq<string>)
    requires ps != []
    ensures [ps[0]] + ps[1..] == ps
  {
  }

  lemma LaidHead(s: string, b: nat, ps: seq<string>)
    requires Laid(s, b, ps) && |ps| > 1
    ensures NextInstance(s, b, ',') == b + |ps[0]|
  {
    TokenEnds(s, b, ps[0]);
  }

  lemma SplitLast(s: string, b: nat, p: string)
    requires b + |p| == |s| && s[b..b + |p|] == p
    requires NextInstance(s, b, ',') == if EndsWith(p, ',') then |s| - 1 else |s|
    ensures Outcome(PiecesFrom(s, b), [p])
  {
    if p != "" {
      PiecesUnfold(s, b, NextInstance(s, b, ','));
    }
  }

  lemma SplitStep(s: string, b: nat, p: string, rest: seq<string>)
    requires b + |p| < |s| && s[b..b + |p|] == p && NextInstance(s, b, ',') == b + |p|
    requires rest != [] && (b + |p| + 1 == |s| <==> LoneEmpty(rest))
    requires Outcome(PiecesFrom(s, b + |p| + 1), rest)
    ensures Outcome(PiecesFrom(s, b), [p] + rest)
  {
    PiecesUnfold(s, b, b + |p|);
    AfterSeparator(s, b + |p|);
    OutcomeStep(PiecesFrom(s, b + |p| + 1), PiecesAfter(s, b + |p|), p, rest);
  }

  lemma AfterSeparator(s: string, e: nat)
    requires e < |s|
    ensures e + 1 == |s| ==> PiecesAfter(s, e) == [""]
    ensures e + 1 < |s| ==> PiecesAfter(s, e) == PiecesFrom(s, e + 1)
  {
  }

  lemma LaidEmpty(s: string, b: nat, ps: seq<string>)
    requires Laid(s, b, ps)
    ensures b == |s| <==> LoneEmpty(ps)
  {
  }

  lemma JoinedTail(s: string, b: nat, ps: seq<string>)
    requires |ps| > 1 && b <= |s| && s[b..] == Join(ps, ",")
    ensures var e := b + |ps[0]|; e < |s| && s[e] == ',' && s[b..e] == ps[0] && s[e + 1..] == Join(ps[1..], ",")
  {
    var p := ps[0];
    assert s[b..][|p|] == ',';
    assert s[b..][..|p|] == p;
    assert s[b..][|p| + 1..] == Join(ps[1..], ",");
  }

  // --------------------------------------------------------------- arguments as written

  /** No quote and no backslash. */
  predicate PlainText(v: string) {
    forall i :: 0 <= i < |v| ==> v[i] != QUOTE && v[i] != BACKSLASH
  }

  /** `p` is a way to write `v`: between quotes, or, without commas, as it is. */
  predicate Written(p: string, v: string) {
    PlainText(v) && (p == [QUOTE] + v + [QUOTE] || (p == v && ',' !in v))
  }

  lemma WrittenToken(p: string, v: string)
    requires Written(p, v)
    ensures Token(p) && Clean(p) == v && !EndsWith(p, ',')
  {
    UnescapedNone(p, ',');
    UnescapedNone(p, ':');
    if p == [QUOTE] + v + [QUOTE] {
      assert p[1..|p| - 1] == v;
      assert QuotedToken(p);
    } else {
      assert PlainToken(p);
    }
  }

  predicate AllWritten(ps: seq<string>, vs: seq<string>) {
    |ps| == |vs| && forall i :: 0 <= i < |ps| ==> Written(ps[i], vs[i])
  }

  lemma {:induction false} CleanWritten(ps: seq<string>, vs: seq<string>)
    requires AllWritten(ps, vs)
    ensures CleanAll(ps) == vs
  {
    if ps != [] {
      WrittenToken(ps[0], vs[0]);
      CleanWritten(ps[1..], vs[1..]);
    }
  }

  /** A name in front of the arguments: no quote, every colon escaped, no backslash at the end. */
  predicate PrefixName(prefix: string) {
    (forall i :: 0 <= i < |prefix| ==> prefix[i] != QUOTE) && Escapes(prefix, ':') && !EndsWith(prefix, BACKSLASH)
  }

  lemma PrefixEnds(prefix: string, t: string)
    requires PrefixName(prefix)
    ensures Arguments(prefix + ":" + t) == ArgumentsFrom(prefix + ":" + t, |prefix| + 1)
  {
    var s := prefix + ":" + t;
    forall i | 0 <= i < |prefix| ensures s[i] != QUOTE && NoStop(s, i, ':') {
      assert s[i] == prefix[i] && NoStop(prefix, i, ':');
    }
    NextUnquoted(s, 0, ':', |prefix|);
  }

  lemma PrefixRest(prefix: string, t: string)
    ensures (prefix + ":" + t)[|prefix| + 1..] == t && !Escaped(prefix + ":" + t, |prefix| + 1)
  {
  }

  lemma LoneWritten(ps: seq<string>, vs: seq<string>)
    requires AllWritten(ps, vs)
    ensures LoneEmpty(ps) <==> ps == [""]
  {
  }

  /**
   Behind a name and a colon the arguments come out as they were before they were written,
   quoted or bare, colons and all; only a lone empty argument vanishes.
   */
  lemma PrefixedArguments(prefix: string, ps: seq<string>, vs: seq<string>)
    requires PrefixName(prefix) && ps != [] && AllWritten(ps, vs)
    ensures Arguments(prefix + ":" + Join(ps, ",")) == if ps == [""] then [] else vs
  {
    var s, b := prefix + ":" + Join(ps, ","), |prefix| + 1;
    forall p | p in ps ensures Token(p) {
      var i :| 0 <= i < |ps| && ps[i] == p;
      WrittenToken(p, vs[i]);
    }
    PrefixEnds(prefix, Join(ps, ","));
    PrefixRest(prefix, Join(ps, ","));
    SplitJoined(s, b, ps);
    WrittenToken(ps[|ps| - 1], vs[|ps| - 1]);
    LoneWritten(ps, vs);
    CleanWritten(ps, vs);
  }
}
