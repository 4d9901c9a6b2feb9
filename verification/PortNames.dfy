/**
 Search-and-replace on strings (kvutils/kvu_utils.cpp), and the list of port names that
 EFFECT_LADSPA builds with it: commas and colons are escaped with a backslash, the names
 joined with commas, and kvu_get_arguments reads the list back.
 */
module PortNames {

  import opened Sequences
  import opened OptionStrings

  // ------------------------------------------------------------- search and replace

  predicate OccursAt(s: string, k: nat, pat: string) {
    k + |pat| <= |s| && s[k..k + |pat|] == pat
  }

  /** string::find for a non-empty pattern; the length of `s` stands for npos. */
  function FindText(s: string, pos: nat, pat: string): (r: nat)
    requires pos <= |s| && pat != ""
    ensures pos <= r <= |s|
    ensures r < |s| ==> OccursAt(s, r, pat)
    decreases |s| - pos
  {
    if pos == |s| || OccursAt(s, pos, pat) then pos else FindText(s, pos + 1, pat)
  }

  /** Every occurrence replaced, from left to right and without overlaps. */
  function ReplacedAll(s: string, pat: string, to: string): string
    requires pat != ""
    decreases |s|
  {
    var k := FindText(s, 0, pat);
    if k == |s| then s else s[..k] + (to + ReplacedAll(s[k + |pat|..], pat, to))
  }

  /** How much text behind a replacement the search passes over unseen, of the `n` characters there. */
  function Overshoot(pat: string, to: string, n: nat): (m: nat)
    ensures m <= n && (|pat| <= |to| ==> m == 0)
  {
    if |pat| <= |to| then 0 else if n <= |pat| - |to| then n else |pat| - |to|
  }

  /** What kvu_string_search_and_replace returns. */
  function Replaced(s: string, pat: string, to: string): string
    requires pat != ""
    decreases |s|, 0
  {
    var k := FindText(s, 0, pat);
    if k == |s| then s else s[..k] + ReplacedFrom(s[k + |pat|..], pat, to)
  }

  /** The same from an occurrence on, `rest` being the text behind it. */
  function ReplacedFrom(rest: string, pat: string, to: string): string
    requires pat != ""
    decreases |rest|, 1
  {
    var m := Overshoot(pat, to, |rest|);
    to + rest[..m] + Replaced(rest[m..], pat, to)
  }

  lemma {:induction false} FindShift(s: string, pos: nat, at: nat, pat: string)
    requires pos <= at <= |s| && pat != ""
    ensures FindText(s, at, pat) == pos + FindText(s[pos..], at - pos, pat)
    decreases |s| - at
  {
    if at < |s| {
      assert OccursAt(s, at, pat) <==> OccursAt(s[pos..], at - pos, pat) by {
        if at + |pat| <= |s| {
          assert s[at..at + |pat|] == s[pos..][at - pos..at - pos + |pat|];
        }
      }
      FindShift(s, pos, at + 1, pat);
    }
  }

  /** One round of the loop, with the text before `pos` settled. */
  lemma ReplaceRound(s: string, pos: nat, pat: string, to: string, k: nat)
    requires pos <= |s| && pat != "" && k == FindText(s, pos, pat)
    ensures k == |s| ==> s[..pos] + Replaced(s[pos..], pat, to) == s
    ensures k < |s| ==> s[..pos] + Replaced(s[pos..], pat, to) == s[..k] + ReplacedFrom(s[k + |pat|..], pat, to)
  {
    FindShift(s, pos, pos, pat);
    if k < |s| {
      ReplaceFound(s, pos, pat, to, k);
    } else {
      ReplacedNot(s[pos..], pat, to);
      assert s[..pos] + s[pos..] == s;
    }
  }

  lemma ReplaceFound(s: string, pos: nat, pat: string, to: string, k: nat)
    requires pos <= k < |s| && pat != "" && k - pos == FindText(s[pos..], 0, pat) && OccursAt(s, k, pat)
    ensures s[..pos] + Replaced(s[pos..], pat, to) == s[..k] + ReplacedFrom(s[k + |pat|..], pat, to)
  {
    ReplacedAt(s[pos..], pat, to, k - pos);
    assert s[pos..][k - pos + |pat|..] == s[k + |pat|..];
    Glue(s, pos, k, Replaced(s[pos..], pat, to), ReplacedFrom(s[k + |pat|..], pat, to));
  }

  lemma ReplacedNot(s: string, pat: string, to: string)
    requires pat != "" && FindText(s, 0, pat) == |s|
    ensures Replaced(s, pat, to) == s
  {
  }

  lemma Glue(s: string, pos: nat, k: nat, x: string, y: string)
    requires pos <= k <= |s| && x == s[pos..][..k - pos] + y
    ensures s[..pos] + x == s[..k] + y
  {
  }

  lemma ReplacedAt(s: string, pat: string, to: string, k: nat)
    requires pat != "" && k == FindText(s, 0, pat) < |s|
    ensures Replaced(s, pat, to) == s[..k] + ReplacedFrom(s[k + |pat|..], pat, to)
  {
  }

  /** The text the loop leaves behind after one replacement, cut at the new search position. */
  lemma ReplaceCut(s: string, pat: string, to: string, k: nat, t: string, pos: nat)
    requires OccursAt(s, k, pat) && pat != "" && t == s[..k] + to + s[k + |pat|..]
    requires pos == k + if |to| > |pat| then |to| else |pat|
    ensures s[..k] + ReplacedFrom(s[k + |pat|..], pat, to) == if pos <= |t| then t[..pos] + Replaced(t[pos..], pat, to) else t
  {
    var rest := s[k + |pat|..];
    if pos <= |t| {
      CutWithin(s[..k], to, rest, Overshoot(pat, to, |rest|), t, pos);
      ConcatAssoc(s[..k], to + rest[..Overshoot(pat, to, |rest|)], Replaced(t[pos..], pat, to));
    } else {
      CutBeyond(rest, pat, to);
      ConcatAssoc(s[..k], to, rest);
    }
  }

  lemma CutWithin(head: string, to: string, rest: string, m: nat, t: string, pos: nat)
    requires t == head + to + rest && m <= |rest| && pos == |head| + |to| + m
    ensures t[..pos] == head + (to + rest[..m]) && t[pos..] == rest[m..]
  {
  }

  lemma CutBeyond(rest: string, pat: string, to: string)
    requires pat != "" && Overshoot(pat, to, |rest|) == |rest|
    ensures ReplacedFrom(rest, pat, to) == to + rest
  {
    assert rest[..|rest|] == rest && rest[|rest|..] == "";
    assert Replaced("", pat, to) == "";
  }

  datatype Option<T> = None | Some(value: T)

  /** string::find for any pattern; the empty one is found wherever the search starts, up to the end. */
  function Lookup(s: string, pos: nat, pat: string): (r: Option<nat>)
    ensures r.Some? ==> pos <= r.value && r.value + |pat| <= |s|
    ensures pat != "" && r.Some? ==> OccursAt(s, r.value, pat)
  {
    if pos > |s| then None
    else if pat == "" then Some(pos)
    else if FindText(s, pos, pat) == |s| then None
    else Some(FindText(s, pos, pat))
  }

  /** One round of the loop: the string and the search position after it, unless it ends. */
  function Round(s: string, pos: nat, pat: string, to: string): Option<(string, nat)> {
    match Lookup(s, pos, pat)
    case None => None
    case Some(k) => Some((s[..k] + to + s[k + |pat|..], k + if |to| > |pat| then |to| else |pat|))
  }

  /** The string and the search position after `n` rounds, unless the loop has ended by then. */
  function Rounds(s: string, pat: string, to: string, n: nat): Option<(string, nat)> {
    if n == 0 then Some((s, 0))
    else
      var before := Rounds(s, pat, to, n - 1);
      if before.None? then None else Round(before.value.0, before.value.1, pat, to)
  }

  /** With an empty pattern the search position never gets behind the end of the growing string. */
  lemma {:induction false} EmptyAlwaysFound(s: string, to: string, n: nat)
    ensures var r := Rounds(s, "", to, n); r.Some? && r.value.1 <= |r.value.0|
  {
    if n > 0 {
      EmptyAlwaysFound(s, to, n - 1);
    }
  }

  /** With any other pattern it gets nearer to the end with every round. */
  lemma {:induction false} RoundsRunOut(s: string, pat: string, to: string, n: nat)
    requires pat != ""
    ensures var r := Rounds(s, pat, to, n); r.Some? ==> |r.value.0| - r.value.1 <= |s| - n
  {
    if n > 0 {
      RoundsRunOut(s, pat, to, n - 1);
    }
  }

  /** The loop goes on for ever exactly if the pattern is empty. */
  lemma EndlessExactly(s: string, pat: string, to: string)
    ensures (forall n: nat :: Rounds(s, pat, to, n).Some?) <==> pat == ""
  {
    if pat == "" {
      forall n: nat ensures Rounds(s, pat, to, n).Some? {
        EmptyAlwaysFound(s, to, n);
      }
    } else {
      var n := |s| + |pat| + 1;
      RoundsRunOut(s, pat, to, n);
      RoundsBounded(s, pat, to, n);
      assert Rounds(s, pat, to, n).None?;
    }
  }

  /** It never gets further behind the end than the pattern is long. */
  lemma {:induction false} RoundsBounded(s: string, pat: string, to: string, n: nat)
    ensures var r := Rounds(s, pat, to, n); r.Some? ==> r.value.1 <= |r.value.0| + |pat|
  {
    if n > 0 {
      RoundsBounded(s, pat, to, n - 1);
    }
  }

  /** What the loop will return from the search position `pos` on. */
  function ReturnedFrom(s: string, pos: nat, pat: string, to: string): string
    requires pat != ""
  {
    if pos <= |s| then s[..pos] + Replaced(s[pos..], pat, to) else s
  }

  lemma FoundKeeps(s: string, pos: nat, pat: string, to: string, k: nat, t: string, next: nat)
    requires pos <= |s| && pat != "" && k == FindText(s, pos, pat) < |s|
    requires t == s[..k] + to + s[k + |pat|..] && next == k + if |to| > |pat| then |to| else |pat|
    ensures ReturnedFrom(s, pos, pat, to) == ReturnedFrom(t, next, pat, to)
  {
    ReplaceRound(s, pos, pat, to, k);
    ReplaceCut(s, pat, to, k, t, next);
  }

  lemma NotFoundKeeps(s: string, pos: nat, pat: string, to: string)
    requires pat != "" && (pos <= |s| ==> FindText(s, pos, pat) == |s|)
    ensures ReturnedFrom(s, pos, pat, to) == s
  {
    if pos <= |s| {
      ReplaceRound(s, pos, pat, to, |s|);
    }
  }

  /** One round of the loop. */
  method ReplaceOnce(s: string, pos: nat, pat: string, to: string) returns (found: bool, t: string, next: nat)
    requires pat != ""
    ensures Round(s, pos, pat, to) == if found then Some((t, next)) else None
    ensures found ==> pos <= |s| && |t| - next < |s| - pos
    ensures ReturnedFrom(s, pos, pat, to) == if found then ReturnedFrom(t, next, pat, to) else s
  {
    found, t, next := false, s, pos;
    if pos <= |s| {
      var k := FindText(s, pos, pat);
      if k != |s| {
        found := true;
        t := s[..k] + to + s[k + |pat|..];
        next := k + if |to| > |pat| then |to| else |pat|;
        FoundKeeps(s, pos, pat, to, k, t, next);
      }
    }
    if !found {
      NotFoundKeeps(s, pos, pat, to);
    }
  }

  /** kvu_string_search_and_replace, round by round; with an empty pattern there is no end to it. */
  method SearchAndReplace(str: string, pat: string, to: string) returns (tmp: string)
    requires pat != ""
    ensures tmp == Replaced(str, pat, to)
  {
    tmp := str;
    var pos := 0;
    ghost var rounds := 0;
    assert str[0..] == str;
    while true
      invariant Rounds(str, pat, to, rounds) == Some((tmp, pos))
      invariant ReturnedFrom(tmp, pos, pat, to) == Replaced(str, pat, to)
      decreases |tmp| - pos + |pat|
    {
      RoundsBounded(str, pat, to, rounds);
      var found, t, next := ReplaceOnce(tmp, pos, pat, to);
      if !found {
        break;
      }
      tmp, pos := t, next;
      rounds := rounds + 1;
    }
  }

  /** With a replacement no shorter than the pattern, nothing is passed over. */
  lemma {:induction false} ReplacesAll(s: string, pat: string, to: string)
    requires pat != "" && |pat| <= |to|
    ensures Replaced(s, pat, to) == ReplacedAll(s, pat, to)
    decreases |s|
  {
    var k := FindText(s, 0, pat);
    if k < |s| {
      ReplacesAll(s[k + |pat|..], pat, to);
      ReplacesStep(s, pat, to, k, s[k + |pat|..]);
    }
  }

  lemma ReplacesStep(s: string, pat: string, to: string, k: nat, rest: string)
    requires pat != "" && |pat| <= |to| && k == FindText(s, 0, pat) < |s| && rest == s[k + |pat|..]
    requires Replaced(rest, pat, to) == ReplacedAll(rest, pat, to)
    ensures Replaced(s, pat, to) == ReplacedAll(s, pat, to)
  {
    ReplacedAt(s, pat, to, k);
    NoOvershoot(rest, pat, to);
  }

  lemma NoOvershoot(rest: string, pat: string, to: string)
    requires pat != "" && |pat| <= |to|
    ensures ReplacedFrom(rest, pat, to) == to + Replaced(rest, pat, to)
  {
    assert rest[..0] == "" && rest[0..] == rest;
  }

  lemma {:induction false} TooShort(s: string, pos: nat, pat: string)
    requires pos <= |s| < |pat|
    ensures FindText(s, pos, pat) == |s|
    decreases |s| - pos
  {
    if pos < |s| {
      TooShort(s, pos + 1, pat);
    }
  }

  /** With a shorter one, the second of two adjacent occurrences is missed. */
  lemma MissesAdjacent(pat: string, to: string)
    requires |to| < |pat|
    ensures Replaced(pat + pat, pat, to) == to + pat
  {
    FrontOccurrence(pat, pat);
    ReplacedAt(pat + pat, pat, to, 0);
    Overshot(pat, to);
  }

  lemma Overshot(pat: string, to: string)
    requires |to| < |pat|
    ensures ReplacedFrom(pat, pat, to) == to + pat
  {
    var m := |pat| - |to|;
    ReplacedShort(pat[m..], pat, to);
    ReplacedFromIs(pat, pat, to, m);
    ConcatAssoc(to, pat[..m], pat[m..]);
    assert pat[..m] + pat[m..] == pat;
  }

  lemma ReplacedFromIs(rest: string, pat: string, to: string, m: nat)
    requires pat != "" && m == Overshoot(pat, to, |rest|)
    ensures ReplacedFrom(rest, pat, to) == to + rest[..m] + Replaced(rest[m..], pat, to)
  {
  }

  lemma ReplacedShort(s: string, pat: string, to: string)
    requires |s| < |pat|
    ensures Replaced(s, pat, to) == s
  {
    TooShort(s, 0, pat);
    ReplacedNot(s, pat, to);
  }

  lemma FrontOccurrence(pat: string, t: string)
    requires pat != ""
    ensures FindText(pat + t, 0, pat) == 0 && (pat + t)[|pat|..] == t
  {
    assert (pat + t)[0..|pat|] == pat;
  }

  lemma ReplacedAllFront(t: string, pat: string, to: string)
    requires pat != ""
    ensures ReplacedAll(pat + t, pat, to) == to + ReplacedAll(t, pat, to)
  {
    FrontOccurrence(pat, t);
  }

  lemma ReplacedAllAdjacent(pat: string, to: string)
    requires pat != ""
    ensures ReplacedAll(pat + pat, pat, to) == to + to
  {
    ReplacedAllFront(pat, pat, to);
    ReplacedAllFront("", pat, to);
    assert pat + "" == pat;
  }

  /** So all occurrences are replaced in every string exactly when the replacement is not the shorter text. */
  lemma ReplacesAllExactly(pat: string, to: string)
    requires pat != ""
    ensures (forall s: string :: Replaced(s, pat, to) == ReplacedAll(s, pat, to)) <==> |pat| <= |to|
  {
    if |pat| <= |to| {
      forall s: string ensures Replaced(s, pat, to) == ReplacedAll(s, pat, to) {
        ReplacesAll(s, pat, to);
      }
    } else {
      MissesAdjacent(pat, to);
      ReplacedAllAdjacent(pat, to);
      assert |Replaced(pat + pat, pat, to)| != |ReplacedAll(pat + pat, pat, to)|;
    }
  }

  // -------------------------------------------------------------------- port names

  /** A backslash before each `c`. */
  function Guarded(v: string, c: char): string {
    if v == "" then "" else (if v[0] == c then [BACKSLASH, c] else [v[0]]) + Guarded(v[1..], c)
  }

  lemma {:induction false} GuardedAt(v: string, c: char, k: nat)
    requires k < |v| && v[k] == c && c !in v[..k]
    ensures Guarded(v, c) == v[..k] + [BACKSLASH, c] + Guarded(v[k + 1..], c)
  {
    if k > 0 {
      assert v[..k][0] == v[0];
      assert v[1..][..k - 1] == v[..k][1..];
      assert v[1..][k..] == v[k + 1..];
      GuardedAt(v[1..], c, k - 1);
      assert v[..k] == [v[0]] + v[1..][..k - 1];
    }
  }

  lemma {:induction false} GuardedNone(v: string, c: char)
    requires c !in v
    ensures Guarded(v, c) == v
  {
    if v != "" {
      GuardedNone(v[1..], c);
      assert v == [v[0]] + v[1..];
    }
  }

  lemma {:induction false} FindTextChar(v: string, pos: nat, c: char)
    requires pos <= |v|
    ensures c !in v[pos..FindText(v, pos, [c])]
    decreases |v| - pos
  {
    var k := FindText(v, pos, [c]);
    if pos < k {
      FindTextChar(v, pos + 1, c);
      assert v[pos..pos + 1] == [v[pos]];
      assert v[pos..k] == [v[pos]] + v[pos + 1..k];
    }
  }

  /** Replacing "c" with "\c" puts a backslash before each `c`. */
  lemma {:induction false} ReplacedGuards(v: string, c: char)
    ensures Replaced(v, [c], [BACKSLASH, c]) == Guarded(v, c)
    decreases |v|
  {
    var k := FindText(v, 0, [c]);
    FindTextChar(v, 0, c);
    if k == |v| {
      assert v[0..k] == v;
      GuardedNone(v, c);
    } else {
      assert v[k..k + 1][0] == c;
      var rest := v[k + 1..];
      assert rest[..0] == "" && rest[0..] == rest;
      ReplacedGuards(rest, c);
      GuardedAt(v, c, k);
    }
  }

  function Printable(name: string): string {
    Guarded(Guarded(name, ','), ':')
  }

  function PrintableAll(names: seq<string>): (r: seq<string>)
    ensures |r| == |names|
    ensures forall i :: 0 <= i < |names| ==> r[i] == Printable(names[i])
  {
    if names == [] then [] else [Printable(names[0])] + PrintableAll(names[1..])
  }

  function NameList(names: seq<string>): string {
    Join(PrintableAll(names), ",")
  }

  lemma {:induction false} JoinSnoc(ps: seq<string>, p: string, separator: string)
    ensures Join(ps + [p], separator) == if ps == [] then p else Join(ps, separator) + separator + p
  {
    if |ps| > 0 {
      assert (ps + [p])[1..] == ps[1..] + [p];
      JoinSnoc(ps[1..], p, separator);
    }
  }

  lemma NameListSnoc(names: seq<string>, name: string)
    ensures NameList(names + [name]) == if names == [] then Printable(name) else NameList(names) + "," + Printable(name)
  {
    assert PrintableAll(names + [name]) == PrintableAll(names) + [Printable(name)];
    JoinSnoc(PrintableAll(names), Printable(name), ",");
  }

  /** How EFFECT_LADSPA collects the names of its control ports. */
  method CollectNames(names: seq<string>) returns (list: string)
    ensures list == NameList(names)
  {
    list := "";
    for n := 0 to |names|
      invariant list == NameList(names[..n])
    {
      NameListSnoc(names[..n], names[n]);
      assert names[..n + 1] == names[..n] + [names[n]];
      if n + 1 > 1 {
        list := list + ",";
      }
      var tmp := SearchAndReplace(names[n], ",", "\\,");
      ReplacedGuards(names[n], ',');
      var shown := SearchAndReplace(tmp, ":", "\\:");
      ReplacedGuards(tmp, ':');
      list := list + shown;
    }
    assert names[..|names|] == names;
  }

  /** A name without quotes and backslashes. */
  predicate PlainName(v: string) {
    forall i :: 0 <= i < |v| ==> v[i] != QUOTE && v[i] != BACKSLASH
  }

  /** How one character is printed. */
  function Shown(c: char): string {
    if c == ',' || c == ':' then [BACKSLASH, c] else [c]
  }

  lemma {:induction false} GuardedConcat(v: string, w: string, c: char)
    ensures Guarded(v + w, c) == Guarded(v, c) + Guarded(w, c)
  {
    if v == "" {
      assert v + w == w;
    } else {
      assert (v + w)[1..] == v[1..] + w;
      GuardedConcat(v[1..], w, c);
    }
  }

  /** Both escapings together work character by character. */
  lemma PrintableStep(v: string)
    requires v != ""
    ensures Printable(v) == Shown(v[0]) + Printable(v[1..])
  {
    var head := if v[0] == ',' then [BACKSLASH, ','] else [v[0]];
    GuardedConcat(head, Guarded(v[1..], ','), ':');
    if v[0] == ',' {
      assert head[1..] == "," && head[1..][1..] == "";
      assert Guarded(head[1..], ':') == ",";
    } else {
      assert head[1..] == "";
    }
  }

  /** Taking the escaped commas back leaves the escaped colons, and taking those back the name. */
  lemma {:induction false} StripPrintable(v: string)
    requires PlainName(v)
    ensures Unescaped(Printable(v), ',') == Guarded(v, ':')
  {
    if v != "" {
      StripPrintable(v[1..]);
      PrintableStep(v);
      UnescapedShown(v[0], Printable(v[1..]), ',');
    }
  }

  /** Stripping one escaped, or unescaped, character off the front. */
  lemma UnescapedShown(x: char, t: string, c: char)
    requires x != BACKSLASH && (c == ',' || c == ':')
    ensures Unescaped([x] + t, c) == [x] + Unescaped(t, c)
    ensures Unescaped([BACKSLASH, x] + t, c) == (if x == c then [x] else [BACKSLASH, x]) + Unescaped(t, c)
  {
    assert ([x] + t)[1..] == t;
    assert ([BACKSLASH, x] + t)[1..] == [x] + t;
  }

  lemma {:induction false} StripGuarded(v: string)
    requires PlainName(v)
    ensures Unescaped(Guarded(v, ':'), ':') == v
  {
    if v != "" {
      StripGuarded(v[1..]);
      UnescapedShown(v[0], Guarded(v[1..], ':'), ':');
      assert v == [v[0]] + v[1..];
    }
  }

  /** What printing makes of a name: no quotes, every comma and colon escaped, the same last character. */
  lemma {:induction false} PrintableShape(v: string)
    requires PlainName(v)
    ensures var p := Printable(v);
            && (forall i :: 0 <= i < |p| ==> p[i] != QUOTE)
            && Escapes(p, ',') && Escapes(p, ':')
            && (v == "" <==> p == "")
            && (v != "" ==> p[|p| - 1] == v[|v| - 1])
  {
    if v != "" {
      PrintableShape(v[1..]);
      PrintableStep(v);
      EscapesConcat(Shown(v[0]), Printable(v[1..]), ',');
      EscapesConcat(Shown(v[0]), Printable(v[1..]), ':');
    }
  }

  lemma EscapesConcat(p: string, q: string, c: char)
    requires Escapes(p, c) && Escapes(q, c)
    ensures Escapes(p + q, c)
  {
    forall i | 0 <= i < |p + q| ensures NoStop(p + q, i, c) {
      if i < |p| {
        assert NoStop(p, i, c);
      } else {
        assert NoStop(q, i - |p|, c);
      }
    }
  }

  lemma NameToken(v: string)
    requires PlainName(v)
    ensures Token(Printable(v)) && Clean(Printable(v)) == v
  {
    PrintableShape(v);
    assert PlainToken(Printable(v));
    StripPrintable(v);
    StripGuarded(v);
  }

  lemma {:induction false} CleanNames(names: seq<string>)
    requires forall v <- names :: PlainName(v)
    ensures CleanAll(PrintableAll(names)) == names
  {
    if names != [] {
      NameToken(names[0]);
      CleanNames(names[1..]);
      assert PrintableAll(names)[1..] == PrintableAll(names[1..]);
    }
  }

  lemma NameListStep(names: seq<string>)
    requires |names| > 1
    ensures NameList(names) == Printable(names[0]) + ("," + NameList(names[1..]))
  {
    assert PrintableAll(names)[1..] == PrintableAll(names[1..]);
  }

  /** The whole list has no quotes and keeps its colons escaped. */
  lemma {:induction false} NameListShape(names: seq<string>)
    requires names != [] && forall v <- names :: PlainName(v)
    ensures var s := NameList(names); (forall i :: 0 <= i < |s| ==> s[i] != QUOTE) && Escapes(s, ':')
  {
    PrintableShape(names[0]);
    if |names| > 1 {
      NameListShape(names[1..]);
      NameListStep(names);
      assert Escapes(",", ':');
      EscapesConcat(",", NameList(names[1..]), ':');
      EscapesConcat(Printable(names[0]), "," + NameList(names[1..]), ':');
    }
  }

  /** And it ends in a colon when its last name does. */
  lemma {:induction false} NameListEnd(names: seq<string>)
    requires names != [] && forall v <- names :: PlainName(v)
    ensures EndsWith(NameList(names), ':') <==> EndsWith(names[|names| - 1], ':')
  {
    PrintableShape(names[0]);
    if |names| > 1 {
      NameListEnd(names[1..]);
      NameListStep(names);
      assert names[|names| - 1] == names[1..][|names| - 2];
    }
  }

  /** The search for a prefix finds none, but for an escaped colon at the very end. */
  lemma NameListPrefix(names: seq<string>)
    requires names != [] && forall v <- names :: PlainName(v)
    ensures var s := NameList(names);
            NextInstance(s, 0, ':') == if EndsWith(names[|names| - 1], ':') then |s| - 1 else |s|
  {
    NameListShape(names);
    NameListEnd(names);
    NextUnquoted(NameList(names), 0, ':', |NameList(names)|);
  }

  lemma NamesAreTokens(names: seq<string>)
    requires forall v <- names :: PlainName(v)
    ensures forall p <- PrintableAll(names) :: Token(p)
    ensures PrintableAll(names) == [""] <==> names == [""]
  {
    var ps := PrintableAll(names);
    forall p | p in ps ensures Token(p) {
      var i :| 0 <= i < |ps| && ps[i] == p;
      NameToken(names[i]);
    }
    if names != [] {
      PrintableShape(names[0]);
    }
  }

  /** The arguments in a list of names with no colon at its end. */
  lemma NamesSplit(names: seq<string>)
    requires names != [] && (forall v <- names :: PlainName(v))
    ensures var got := ArgumentsFrom(NameList(names), 0);
            && (names == [""] ==> got == [])
            && (EndsWith(names[|names| - 1], ',') ==> |got| == |names| + 1)
            && (names != [""] && !EndsWith(names[|names| - 1], ',') ==> got == names)
  {
    var s, ps := NameList(names), PrintableAll(names);
    NamesAreTokens(names);
    assert s[0..] == s;
    SameEnd(names[|names| - 1], ',');
    SplitJoined(s, 0, ps);
    CleanNames(names);
  }

  lemma SameEnd(v: string, c: char)
    requires PlainName(v)
    ensures EndsWith(Printable(v), c) <==> EndsWith(v, c)
  {
    PrintableShape(v);
  }

  /** Whether a list of names survives: not a single empty one, and no comma or colon at its very end. */
  predicate Survives(names: seq<string>) {
    names == [] || (names != [""] && !EndsWith(names[|names| - 1], ',') && !EndsWith(names[|names| - 1], ':'))
  }

  /** Escaping, joining and parsing gives the names back exactly when the list survives. */
  lemma NamesRoundTrip(names: seq<string>)
    requires forall v <- names :: PlainName(v)
    ensures Arguments(NameList(names)) == names <==> Survives(names)
  {
    if names != [] {
      NameListPrefix(names);
      NamesSplit(names);
      NameListEnd(names);
    }
  }
}
