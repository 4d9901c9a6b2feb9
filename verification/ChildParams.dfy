/**
 The child parameters of a proxy object (libecasound/audioio-proxy.cpp): printed into an
 option string with those that hold a comma in quotes, and read back by kvu_get_arguments.
 */
module ChildParams {

  import opened Sequences
  import opened OptionStrings

  /** A parameter that holds a comma goes between quotes. */
  function QuotedParam(v: string): string {
    if ',' in v then [QUOTE] + v + [QUOTE] else v
  }

  function QuotedParams(ps: seq<string>): (r: seq<string>)
    ensures |r| == |ps|
    ensures forall i :: 0 <= i < |ps| ==> r[i] == QuotedParam(ps[i])
  {
    if ps == [] then [] else [QuotedParam(ps[0])] + QuotedParams(ps[1..])
  }

  function Printed(ps: seq<string>): string {
    Join(QuotedParams(ps), ",")
  }

  lemma PrintedStep(ps: seq<string>)
    requires ps != []
    ensures Printed(ps) == if |ps| == 1 then QuotedParam(ps[0]) else QuotedParam(ps[0]) + ("," + Printed(ps[1..]))
  {
    assert QuotedParams(ps)[1..] == QuotedParams(ps[1..]);
  }

  /** What is still to be printed from the parameter at `k` on. */
  function PrintedFrom(params: seq<string>, k: nat): string
    decreases |params| - k
  {
    if k >= |params| then ""
    else if k + 1 == |params| then QuotedParam(params[k])
    else QuotedParam(params[k]) + ("," + PrintedFrom(params, k + 1))
  }

  lemma {:induction false} PrintedFromIs(params: seq<string>, k: nat)
    requires k < |params|
    ensures PrintedFrom(params, k) == Printed(params[k..])
    decreases |params| - k
  {
    PrintedStep(params[k..]);
    if k + 1 < |params| {
      assert params[k..][1..] == params[k + 1..];
      PrintedFromIs(params, k + 1);
    }
  }

  lemma PrintStep(params: seq<string>, k: nat, res: string)
    requires k < |params|
    ensures k + 1 < |params| ==> res + PrintedFrom(params, k) == res + QuotedParam(params[k]) + "," + PrintedFrom(params, k + 1)
    ensures k + 1 == |params| ==> res + PrintedFrom(params, k) == res + QuotedParam(params[k])
  {
    ConcatAssoc(res, QuotedParam(params[k]), "," + PrintedFrom(params, k + 1));
    ConcatAssoc(res + QuotedParam(params[k]), ",", PrintedFrom(params, k + 1));
  }

  /** The loop that prints the parameters from position `from` on. */
  method PrintParams(from: nat, params: seq<string>) returns (res: string)
    ensures res == PrintedFrom(params, from)
  {
    ghost var goal := PrintedFrom(params, from);
    res := "";
    var n := from;
    assert res + goal == goal;
    while n < |params|
      invariant n < |params| ==> goal == res + PrintedFrom(params, n)
      invariant n >= |params| ==> goal == res
    {
      PrintStep(params, n, res);
      var v := params[n];
      if ',' in v {
        v := [QUOTE] + v + [QUOTE];
      }
      res := res + v;
      if n + 1 != |params| {
        res := res + ",";
      }
      n := n + 1;
    }
  }

  /** `child_params_as_string` of the parameters from the one numbered `first`, counted from one. */
  method ChildParamsAsString(first: nat, params: seq<string>) returns (res: string)
    requires 1 <= first
    ensures res == if first <= |params| then Printed(params[first - 1..]) else ""
  {
    res := PrintParams(first - 1, params);
    if first <= |params| {
      PrintedFromIs(params, first - 1);
    }
  }

  // ------------------------------------------------------------------- reading back

  lemma ParamToken(v: string)
    requires PlainText(v)
    ensures Token(QuotedParam(v)) && Clean(QuotedParam(v)) == v && !EndsWith(QuotedParam(v), ',')
    ensures QuotedParam(v) == "" <==> v == ""
    ensures QUOTE !in v && BACKSLASH !in v
  {
    WrittenToken(QuotedParam(v), v);
  }

  lemma {:induction false} CleanParams(ps: seq<string>)
    requires forall p <- ps :: PlainText(p)
    ensures CleanAll(QuotedParams(ps)) == ps
  {
    if ps != [] {
      ParamToken(ps[0]);
      CleanParams(ps[1..]);
      assert QuotedParams(ps)[1..] == QuotedParams(ps[1..]);
    }
  }

  /** If the search for a prefix finds none, the parameters come back, unless there is one and it is empty. */
  lemma UncutRoundTrip(ps: seq<string>)
    requires forall p <- ps :: PlainText(p)
    requires NextInstance(Printed(ps), 0, ':') == |Printed(ps)|
    ensures Arguments(Printed(ps)) == if ps == [""] then [] else ps
  {
    var qs, s := QuotedParams(ps), Printed(ps);
    if ps != [] {
      forall q | q in qs ensures Token(q) {
        var i :| 0 <= i < |qs| && qs[i] == q;
        ParamToken(ps[i]);
      }
      assert s[0..] == s;
      ParamToken(ps[|ps| - 1]);
      SplitJoined(s, 0, qs);
      CleanParams(ps);
      ParamToken(ps[0]);
      assert qs == [""] <==> ps == [""];
    }
  }

  // ---------------------------------------------------------------- where colons cut

  /** Every colon is in the first parameter that holds a comma, the first to be put in quotes. */
  predicate ColonsCovered(ps: seq<string>) {
    if ps == [] then true
    else if ',' in ps[0] then forall p <- ps[1..] :: ':' !in p
    else ':' !in ps[0] && ColonsCovered(ps[1..])
  }

  lemma {:induction false} FindBehind(p: string, t: string, k: nat, c: char)
    requires k <= |t|
    ensures Find(p + t, |p| + k, c) == |p| + Find(t, k, c)
    decreases |t| - k
  {
    if k < |t| && t[k] != c {
      FindBehind(p, t, k + 1, c);
    }
  }

  lemma FindPast(p: string, t: string, c: char)
    requires c !in p
    ensures Find(p + t, 0, c) == |p| + Find(t, 0, c)
  {
    FindFirst(p + t, 0, c, |p|);
    FindFrom(p + t, 0, |p|, c);
    FindBehind(p, t, 0, c);
  }

  /** Text without quotes and colons in front makes no difference to the search for a colon. */
  lemma PlainHead(p: string, t: string)
    requires ':' !in p && QUOTE !in p
    ensures Candidate(p + t, 0, ':') == |p| + Candidate(t, 0, ':')
  {
    FindPast(p, t, ':');
    FindPast(p, t, QUOTE);
    var open := Find(t, 0, QUOTE);
    if open < Find(t, 0, ':') {
      FindBehind(p, t, open + 1, QUOTE);
      FindRest(p, t, Find(t, open + 1, QUOTE));
    }
  }

  lemma FindRest(p: string, t: string, close: nat)
    requires close <= |t|
    ensures close < |t| ==> Find(p + t, |p| + close + 1, ':') == |p| + Find(t, close + 1, ':')
  {
    if close < |t| {
      FindBehind(p, t, close + 1, ':');
    }
  }

  /** A colon outside the quotes at the start is found. */
  lemma ColonHead(p: string, t: string)
    requires ':' in p && QUOTE !in p
    ensures Candidate(p + t, 0, ':') < |p|
  {
    var i :| 0 <= i < |p| && p[i] == ':';
    assert (p + t)[i] == ':';
    FindFirst(p + t, 0, ':', i + 1);
    FindFirst(p + t, 0, QUOTE, |p|);
  }

  /** Behind a quoted section any colon is found. */
  lemma QuotedHead(v: string, t: string)
    requires QUOTE !in v
    ensures var s := [QUOTE] + v + [QUOTE] + t;
            Candidate(s, 0, ':') == |s| <==> ':' !in t
  {
    var s, close := [QUOTE] + v + [QUOTE] + t, |v| + 1;
    assert Find(s, 0, QUOTE) == 0 && Find(s, 0, ':') != 0;
    forall i | 1 <= i < close ensures s[i] != QUOTE {
      assert s[i] == v[i - 1];
    }
    FindFirst(s, 1, QUOTE, close);
    assert s[close] == QUOTE;
    FindFirst(s, 1, QUOTE, close + 1);
    assert Find(s, 1, QUOTE) == close;
    FindBehind([QUOTE] + v + [QUOTE], t, 0, ':');
    FindFirst(t, 0, ':', |t|);
  }

  lemma {:induction false} ColonInPrinted(ps: seq<string>)
    ensures ':' in Printed(ps) <==> exists p <- ps :: ':' in p
  {
    if ps != [] {
      PrintedStep(ps);
      ColonInPrinted(ps[1..]);
      assert forall p <- ps :: p == ps[0] || p in ps[1..];
    }
  }

  /** The search for a prefix finds none exactly if the colons are covered. */
  lemma {:induction false} ColonsFound(ps: seq<string>)
    requires forall p <- ps :: PlainText(p)
    ensures Candidate(Printed(ps), 0, ':') == |Printed(ps)| <==> ColonsCovered(ps)
  {
    if ps != [] {
      var v, t := ps[0], if |ps| == 1 then "" else "," + Printed(ps[1..]);
      PrintedStep(ps);
      assert Printed(ps) == QuotedParam(v) + t;
      ParamToken(v);
      if ',' in v {
        QuotedHead(v, t);
        ColonInPrinted(ps[1..]);
      } else if ':' in v {
        ColonHead(v, t);
      } else {
        PlainHead(v, t);
        if |ps| > 1 {
          PlainHead(",", Printed(ps[1..]));
          ColonsFound(ps[1..]);
        }
      }
    }
  }

  // ------------------------------------------------------------ what a cut takes away

  function Count(s: string, c: char): nat {
    multiset(s)[c]
  }

  function CountAll(ps: seq<string>, c: char): nat {
    if ps == [] then 0 else Count(ps[0], c) + CountAll(ps[1..], c)
  }

  lemma CountConcat(a: string, b: string, c: char)
    ensures Count(a + b, c) == Count(a, c) + Count(b, c)
  {
  }

  lemma CountHead(s: string, c: char)
    requires s != ""
    ensures Count(s, c) == Count(s[1..], c) + if s[0] == c then 1 else 0
  {
    assert s == [s[0]] + s[1..];
  }

  lemma {:induction false} CountUnescaped(s: string, x: char, c: char)
    requires c != BACKSLASH
    ensures Count(Unescaped(s, x), c) == Count(s, c)
  {
    if s != "" {
      CountUnescaped(s[1..], x, c);
      CountHead(s, c);
      CountConcat([s[0]], Unescaped(s[1..], x), c);
    }
  }

  /** Cleaning an argument keeps its colons. */
  lemma CountClean(p: string, c: char)
    requires c != BACKSLASH && c != QUOTE
    ensures Count(Clean(p), c) == Count(p, c)
  {
    CountUnescaped(p, ',', c);
    CountUnescaped(Unescaped(p, ','), ':', c);
    CountStripped(Unescaped(Unescaped(p, ','), ':'), c);
  }

  lemma CountStripped(q: string, c: char)
    requires c != QUOTE
    ensures Count(StripOuterQuotes(q), c) == Count(q, c)
  {
    var r := StripOuterQuotes(q);
    if r != q {
      assert q == [QUOTE] + r + [QUOTE];
    }
  }

  lemma {:induction false} CountCleanAll(ps: seq<string>, c: char)
    requires c != BACKSLASH && c != QUOTE
    ensures CountAll(CleanAll(ps), c) == CountAll(ps, c)
  {
    if ps != [] {
      CountClean(ps[0], c);
      CountCleanAll(ps[1..], c);
      assert CleanAll(ps)[1..] == CleanAll(ps[1..]);
    }
  }

  lemma CountAround(s: string, b: nat, e: nat, c: char)
    requires b <= e < |s|
    ensures Count(s[b..], c) == Count(s[b..e], c) + (if s[e] == c then 1 else 0) + Count(s[e + 1..], c)
  {
    assert s[b..] == s[b..e] + ([s[e]] + s[e + 1..]);
    CountConcat(s[b..e], [s[e]] + s[e + 1..], c);
    CountConcat([s[e]], s[e + 1..], c);
  }

  /** Splitting keeps everything but separators. */
  lemma {:induction false} CountPieces(s: string, b: nat, c: char)
    requires b <= |s| && c != ','
    ensures CountAll(PiecesFrom(s, b), c) == Count(s[b..], c)
    decreases |s| - b
  {
    if b < |s| {
      var e := NextInstance(s, b, ',');
      if e + 1 < |s| {
        CountPieces(s, e + 1, c);
      }
      CountStep(s, b, e, c);
    }
  }

  lemma CountStep(s: string, b: nat, e: nat, c: char)
    requires b < |s| && e == NextInstance(s, b, ',') && c != ','
    requires e + 1 < |s| ==> CountAll(PiecesFrom(s, e + 1), c) == Count(s[e + 1..], c)
    ensures CountAll(PiecesFrom(s, b), c) == Count(s[b..], c)
  {
    CountUnfold(s, b, e, c);
    CountBehind(s, b, e, c);
  }

  lemma CountUnfold(s: string, b: nat, e: nat, c: char)
    requires b < |s| && e == NextInstance(s, b, ',')
    ensures CountAll(PiecesFrom(s, b), c) == Count(s[b..e], c) + CountAll(PiecesAfter(s, e), c)
  {
    PiecesUnfold(s, b, e);
    CountFirst(s[b..e], PiecesAfter(s, e), c);
  }

  lemma CountBehind(s: string, b: nat, e: nat, c: char)
    requires b < |s| && e == NextInstance(s, b, ',') && c != ','
    requires e + 1 < |s| ==> CountAll(PiecesFrom(s, e + 1), c) == Count(s[e + 1..], c)
    ensures Count(s[b..e], c) + CountAll(PiecesAfter(s, e), c) == Count(s[b..], c)
  {
    if e < |s| {
      NextHits(s, b, ',');
      CountAround(s, b, e, c);
      CountAfter(s, e, c);
    } else {
      assert s[b..] == s[b..e];
    }
  }

  lemma CountAfter(s: string, e: nat, c: char)
    requires e < |s| && (e + 1 < |s| ==> CountAll(PiecesFrom(s, e + 1), c) == Count(s[e + 1..], c))
    ensures CountAll(PiecesAfter(s, e), c) == Count(s[e + 1..], c)
  {
    if e + 1 == |s| {
      CountFirst("", [], c);
      assert s[e + 1..] == "";
    }
  }

  lemma CountFirst(p: string, ps: seq<string>, c: char)
    ensures CountAll([p] + ps, c) == Count(p, c) + CountAll(ps, c)
    ensures [""] + [] == [""]
  {
    assert ([p] + ps)[1..] == ps;
  }

  lemma CountQuoted(v: string, c: char)
    requires c != QUOTE
    ensures Count(QuotedParam(v), c) == Count(v, c)
  {
    CountConcat([QUOTE] + v, [QUOTE], c);
    CountConcat([QUOTE], v, c);
  }

  lemma {:induction false} CountPrinted(ps: seq<string>, c: char)
    requires c != ',' && c != QUOTE
    ensures Count(Printed(ps), c) == CountAll(ps, c)
  {
    if ps != [] {
      PrintedStep(ps);
      CountQuoted(ps[0], c);
      CountPrinted(ps[1..], c);
      if |ps| > 1 {
        CountConcat(QuotedParam(ps[0]), "," + Printed(ps[1..]), c);
        CountConcat(",", Printed(ps[1..]), c);
      }
    }
  }

  lemma ArgumentsBehind(s: string, k: nat)
    requires k == NextInstance(s, 0, ':') < |s|
    ensures Arguments(s) == CleanAll(PiecesFrom(s, k + 1))
  {
  }

  /** Arguments read from behind a colon hold fewer colons than the string. */
  lemma CutLosesColon(s: string, k: nat, got: seq<string>)
    requires k < |s| && s[k] == ':' && got == CleanAll(PiecesFrom(s, k + 1))
    ensures CountAll(got, ':') < Count(s, ':')
  {
    CountPieces(s, k + 1, ':');
    CountCleaned(PiecesFrom(s, k + 1), got, s[k + 1..]);
    CountCut(s, k);
  }

  lemma CountCleaned(pieces: seq<string>, got: seq<string>, rest: string)
    requires got == CleanAll(pieces) && CountAll(pieces, ':') == Count(rest, ':')
    ensures CountAll(got, ':') == Count(rest, ':')
  {
    CountCleanAll(pieces, ':');
  }

  lemma CountCut(s: string, k: nat)
    requires k < |s| && s[k] == ':'
    ensures Count(s[k + 1..], ':') < Count(s, ':')
  {
    CountAround(s, 0, k, ':');
    assert s[0..] == s;
  }

  lemma PlainQuoted(v: string)
    requires PlainText(v)
    ensures BACKSLASH !in QuotedParam(v)
  {
    assert forall c <- v :: c != BACKSLASH;
  }

  lemma LacksConcat(a: string, b: string, c: char)
    requires c !in a && c !in b
    ensures c !in a + b
  {
  }

  lemma {:induction false} NoBackslashPrinted(ps: seq<string>)
    requires forall p <- ps :: PlainText(p)
    ensures BACKSLASH !in Printed(ps)
  {
    if ps != [] {
      PrintedStep(ps);
      PlainQuoted(ps[0]);
      NoBackslashPrinted(ps[1..]);
      if |ps| > 1 {
        LacksConcat(QuotedParam(ps[0]), "," + Printed(ps[1..]), BACKSLASH);
      }
    }
  }

  /**
   Printing child parameters without quotes and backslashes and parsing them gives them back
   exactly if they are not a single empty one and every colon is in the first that holds a comma.
   */
  lemma ParamsRoundTrip(ps: seq<string>)
    requires forall p <- ps :: PlainText(p)
    ensures Arguments(Printed(ps)) == ps <==> ps != [""] && ColonsCovered(ps)
  {
    PrefixFound(ps);
    if NextInstance(Printed(ps), 0, ':') == |Printed(ps)| {
      UncutRoundTrip(ps);
    } else {
      ArgumentsBehind(Printed(ps), NextInstance(Printed(ps), 0, ':'));
      CutDiffers(ps, NextInstance(Printed(ps), 0, ':'), Arguments(Printed(ps)));
    }
  }

  /** The search for a prefix in printed parameters. */
  lemma PrefixFound(ps: seq<string>)
    requires forall p <- ps :: PlainText(p)
    ensures var s := Printed(ps);
            var k := NextInstance(s, 0, ':');
            (k == |s| <==> ColonsCovered(ps)) && (k < |s| ==> s[k] == ':')
  {
    var s := Printed(ps);
    NoBackslashPrinted(ps);
    assert forall i :: 0 <= i < |s| ==> s[i] in s;
    CandidateHits(s, 0, ':');
    assert NextInstance(s, 0, ':') == if s == "" then 0 else Candidate(s, 0, ':');
    ColonsFound(ps);
  }

  lemma CutDiffers(ps: seq<string>, k: nat, got: seq<string>)
    requires k < |Printed(ps)| && Printed(ps)[k] == ':' && got == CleanAll(PiecesFrom(Printed(ps), k + 1))
    ensures got != ps
  {
    CutLosesColon(Printed(ps), k, got);
    CountPrinted(ps, ':');
  }

  /** For example, a lone parameter with a colon loses what is in front of it. */
  lemma ColonCutsParam()
    ensures Arguments(Printed(["a:b"])) == ["b"]
  {
    var s := "a:b";
    assert Printed(["a:b"]) == s;
    assert Find(s, 0, ':') == 1 && Find(s, 0, QUOTE) == 3;
    assert NextInstance(s, 0, ':') == 1;
    assert NextInstance(s, 2, ',') == 3;
    assert s[2..] == "b";
    UnescapedNone("b", ',');
    UnescapedNone("b", ':');
  }
}
