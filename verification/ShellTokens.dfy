/**
 Escaping arguments for a command line and cutting a line into tokens again
 (kvutils/kvu_utils.cpp).
 */
module ShellTokens {

  import opened Sequences
  import opened OptionStrings

  /** isspace in the C locale: tab, line feed, vertical tab, form feed, carriage return and space. */
  predicate IsSpace(c: char) {
    c == ' ' || '\t' <= c <= '\r'
  }

  predicate IsMeta(c: char) {
    c in "\"' |&;()<>"
  }

  function ShellEscaped(arg: string): string {
    if arg == "" then "" else (if IsMeta(arg[0]) then [BACKSLASH, arg[0]] else [arg[0]]) + ShellEscaped(arg[1..])
  }

  lemma {:induction false} ShellEscapedConcat(a: string, b: string)
    ensures ShellEscaped(a + b) == ShellEscaped(a) + ShellEscaped(b)
  {
    if a == "" {
      assert a + b == b;
    } else {
      assert (a + b)[1..] == a[1..] + b;
      ShellEscapedConcat(a[1..], b);
    }
  }

  /** kvu_string_shell_meta_escape. */
  method ShellMetaEscape(arg: string) returns (result: string)
    ensures result == ShellEscaped(arg)
  {
    result := "";
    var p := 0;
    while p != |arg|
      invariant p <= |arg| && result == ShellEscaped(arg[..p])
      decreases |arg| - p
    {
      ShellEscapedConcat(arg[..p], [arg[p]]);
      assert arg[..p + 1] == arg[..p] + [arg[p]];
      if IsMeta(arg[p]) {
        result := result + [BACKSLASH, arg[p]];
      } else {
        result := result + [arg[p]];
      }
      p := p + 1;
    }
    assert arg[..p] == arg;
  }

  // ---------------------------------------------------------------- cutting a line

  /** A token is only kept when there is something in it. */
  function Finished(token: string): seq<string> {
    if token == "" then [] else [token]
  }

  /** The tokens of `s`, with `token` begun and a double quote open or not. */
  function Tokens(s: string, token: string, quoted: bool): seq<string> {
    if s == "" then Finished(token)
    else if s[0] == QUOTE then Tokens(s[1..], token + [QUOTE], !quoted)
    else if s[0] == BACKSLASH then
      if |s| == 1 then Finished(token) else Tokens(s[2..], token + [s[1]], quoted)
    else if !IsSpace(s[0]) || quoted then Tokens(s[1..], token + [s[0]], quoted)
    else Finished(token) + Tokens(s[1..], "", quoted)
  }

  /** kvu_string_to_tokens_quoted. */
  method ToTokensQuoted(s: string) returns (vec: seq<string>)
    ensures vec == Tokens(s, "", false)
  {
    vec := [];
    var stmp := "";
    var quoteflag := false;
    var p := 0;
    assert s[0..] == s;
    while p != |s|
      invariant p <= |s|
      invariant vec + Tokens(s[p..], stmp, quoteflag) == Tokens(s, "", false)
      decreases |s| - p
    {
      assert s[p..][0] == s[p] && s[p..][1..] == s[p + 1..];
      if s[p] == QUOTE {
        quoteflag := !quoteflag;
        stmp := stmp + [s[p]];
      } else if s[p] == BACKSLASH {
        p := p + 1;
        if p == |s| {
          break;
        }
        assert s[p - 1..][1] == s[p] && s[p - 1..][2..] == s[p + 1..];
        stmp := stmp + [s[p]];
      } else if !IsSpace(s[p]) || quoteflag {
        stmp := stmp + [s[p]];
      } else {
        ConcatAssoc(vec, Finished(stmp), Tokens(s[p + 1..], "", quoteflag));
        if |stmp| != 0 {
          vec := vec + [stmp];
          stmp := "";
        }
      }
      p := p + 1;
    }
    if |stmp| > 0 {
      vec := vec + [stmp];
    }
  }

  // ---------------------------------------------------------------- what is read back

  /**
   Whether all of an argument is read back, with a double quote open or not at its start. A
   backslash loses the escape of the shell character behind it, so that a double quote there
   opens or closes a quote, and a space there, like any other whitespace, needs an open one.
   */
  predicate Kept(a: string, quoted: bool) {
    if a == "" then true
    else if a[0] == BACKSLASH then
      |a| > 1 && IsMeta(a[1]) && (a[1] == ' ' ==> quoted) && Kept(a[2..], quoted != (a[1] == QUOTE))
    else (IsSpace(a[0]) && a[0] != ' ' ==> quoted) && Kept(a[1..], quoted)
  }

  /** Whether a double quote is open behind an argument. */
  function QuoteAfter(a: string, quoted: bool): bool {
    if a == "" then quoted
    else if a[0] == BACKSLASH && |a| > 1 then QuoteAfter(a[2..], quoted != (a[1] == QUOTE))
    else QuoteAfter(a[1..], quoted)
  }

  /** All of every argument is read back, and no quote is left open at a separator. */
  predicate AllKept(args: seq<string>) {
    && (forall i :: 0 <= i < |args| ==> Kept(args[i], false))
    && (forall i :: 0 <= i < |args| - 1 ==> !QuoteAfter(args[i], false))
  }

  lemma AllKeptHead(args: seq<string>)
    requires args != []
    ensures AllKept(args) <==> Kept(args[0], false) && (|args| > 1 ==> !QuoteAfter(args[0], false)) && AllKept(args[1..])
  {
    var rest := args[1..];
    if Kept(args[0], false) && (|args| > 1 ==> !QuoteAfter(args[0], false)) && AllKept(rest) {
      forall i | 0 <= i < |args| ensures Kept(args[i], false) && (i < |args| - 1 ==> !QuoteAfter(args[i], false)) {
        assert i > 0 ==> args[i] == rest[i - 1];
      }
    }
    if AllKept(args) {
      forall i | 0 <= i < |rest| ensures Kept(rest[i], false) && (i < |rest| - 1 ==> !QuoteAfter(rest[i], false)) {
        assert rest[i] == args[i + 1];
      }
    }
  }

  // ------------------------------------------------------------------- reading a line

  function EscapedAll(args: seq<string>): (r: seq<string>)
    ensures |r| == |args|
    ensures forall i :: 0 <= i < |args| ==> r[i] == ShellEscaped(args[i])
  {
    if args == [] then [] else [ShellEscaped(args[0])] + EscapedAll(args[1..])
  }

  function CommandLine(args: seq<string>): string {
    Join(EscapedAll(args), " ")
  }

  function EscapedChar(c: char): string {
    if IsMeta(c) then [BACKSLASH, c] else [c]
  }

  /** The rest `a` of an argument, and further arguments. */
  function Text(a: string, args: seq<string>): string {
    ShellEscaped(a) + if args == [] then "" else " " + CommandLine(args)
  }

  lemma CommandLineStep(args: seq<string>)
    requires args != []
    ensures CommandLine(args) == Text(args[0], args[1..])
  {
    assert EscapedAll(args)[1..] == EscapedAll(args[1..]);
    assert |args| == 1 ==> ShellEscaped(args[0]) + "" == ShellEscaped(args[0]);
  }

  lemma TextHead(a: string, args: seq<string>)
    requires a != ""
    ensures Text(a, args) == EscapedChar(a[0]) + Text(a[1..], args)
  {
    var rest := if args == [] then "" else " " + CommandLine(args);
    ConcatAssoc(EscapedChar(a[0]), ShellEscaped(a[1..]), rest);
  }

  lemma TextPair(x: char, c: string, args: seq<string>)
    ensures Text([BACKSLASH, x] + c, args) == [BACKSLASH] + (EscapedChar(x) + Text(c, args))
  {
    var a := [BACKSLASH, x] + c;
    assert a[1..] == [x] + c && a[1..][1..] == c;
    TextHead(a, args);
    TextHead(a[1..], args);
  }

  /** A character that is not special to the reader joins the token. */
  lemma TokensOfPlain(c: char, rest: string, token: string, quoted: bool)
    requires c != BACKSLASH && c != QUOTE && (!IsSpace(c) || quoted)
    ensures Tokens([c] + rest, token, quoted) == Tokens(rest, token + [c], quoted)
  {
    assert ([c] + rest)[1..] == rest;
  }

  /** Whitespace ends the token, outside quotes. */
  lemma TokensOfSpace(c: char, rest: string, token: string)
    requires IsSpace(c)
    ensures Tokens([c] + rest, token, false) == Finished(token) + Tokens(rest, "", false)
  {
    assert ([c] + rest)[1..] == rest;
  }

  lemma TokensOfQuote(rest: string, token: string, quoted: bool)
    ensures Tokens([QUOTE] + rest, token, quoted) == Tokens(rest, token + [QUOTE], !quoted)
  {
    assert ([QUOTE] + rest)[1..] == rest;
  }

  /** A backslash takes the next character of the text, whatever that is, as it is. */
  lemma TokensOfEscape(x: char, rest: string, token: string, quoted: bool)
    ensures Tokens([BACKSLASH] + ([x] + rest), token, quoted) == Tokens(rest, token + [x], quoted)
  {
    var s := [BACKSLASH] + ([x] + rest);
    assert s[2..] == rest && s[1] == x;
  }

  lemma TokensOfLast(token: string, quoted: bool)
    ensures Tokens([BACKSLASH], token, quoted) == Finished(token)
  {
  }

  /** The escape of a shell character is taken back. */
  lemma TokensOfMeta(x: char, rest: string, token: string, quoted: bool)
    requires IsMeta(x)
    ensures Tokens(EscapedChar(x) + rest, token, quoted) == Tokens(rest, token + [x], quoted)
  {
    assert EscapedChar(x) + rest == [BACKSLASH] + ([x] + rest);
    TokensOfEscape(x, rest, token, quoted);
  }

  /** How a character of an argument, not a backslash, is read. */
  lemma ReadChar(a: string, args: seq<string>, token: string, quoted: bool)
    requires a != "" && a[0] != BACKSLASH
    ensures Tokens(Text(a, args), token, quoted)
         == if IsSpace(a[0]) && a[0] != ' ' && !quoted then Finished(token) + Tokens(Text(a[1..], args), "", false)
            else Tokens(Text(a[1..], args), token + [a[0]], quoted)
  {
    TextHead(a, args);
    if IsMeta(a[0]) {
      TokensOfMeta(a[0], Text(a[1..], args), token, quoted);
    } else if IsSpace(a[0]) && !quoted {
      TokensOfSpace(a[0], Text(a[1..], args), token);
    } else {
      TokensOfPlain(a[0], Text(a[1..], args), token, quoted);
    }
  }

  /** How a backslash of an argument and a character behind it that is not escaped are read: only the second stays. */
  lemma ReadLostBackslash(x: char, c: string, args: seq<string>, token: string, quoted: bool)
    requires !IsMeta(x)
    ensures Tokens(Text([BACKSLASH, x] + c, args), token, quoted) == Tokens(Text(c, args), token + [x], quoted)
  {
    TextPair(x, c, args);
    TokensOfEscape(x, Text(c, args), token, quoted);
  }

  /** How a backslash of an argument and a shell character behind it are read. */
  lemma ReadKeptBackslash(x: char, c: string, args: seq<string>, token: string, quoted: bool)
    requires IsMeta(x)
    ensures Tokens(Text([BACKSLASH, x] + c, args), token, quoted)
         == if x == ' ' && !quoted then Finished(token + [BACKSLASH]) + Tokens(Text(c, args), "", false)
            else Tokens(Text(c, args), token + [BACKSLASH] + [x], quoted != (x == QUOTE))
  {
    var rest := Text(c, args);
    TextPair(x, c, args);
    assert [BACKSLASH, x] + rest == [BACKSLASH] + ([x] + rest);
    TokensOfEscape(BACKSLASH, [x] + rest, token, quoted);
    if x == QUOTE {
      TokensOfQuote(rest, token + [BACKSLASH], quoted);
    } else if x == ' ' && !quoted {
      TokensOfSpace(x, rest, token + [BACKSLASH]);
    } else {
      TokensOfPlain(x, rest, token + [BACKSLASH], quoted);
    }
  }

  /** How a backslash that ends its argument is read: it takes the separator, or nothing, with it. */
  lemma ReadLastBackslash(args: seq<string>, token: string, quoted: bool)
    ensures Tokens(Text([BACKSLASH], args), token, quoted)
         == if args == [] then Finished(token) else Tokens(CommandLine(args), token + " ", quoted)
  {
    TextHead([BACKSLASH], args);
    if args == [] {
      assert Text([BACKSLASH], args) == [BACKSLASH];
      TokensOfLast(token, quoted);
    } else {
      var line := CommandLine(args);
      assert Text("", args) == " " + line;
      assert [BACKSLASH] + (" " + line) == [BACKSLASH] + ([' '] + line);
      TokensOfEscape(' ', line, token, quoted);
    }
  }

  /** How the end of an argument is read. */
  lemma ReadEnd(args: seq<string>, token: string, quoted: bool)
    ensures Tokens(Text("", args), token, quoted)
         == if args == [] then Finished(token)
            else if quoted then Tokens(CommandLine(args), token + " ", true)
            else Finished(token) + Tokens(CommandLine(args), "", false)
  {
    if args != [] {
      assert Text("", args) == [' '] + CommandLine(args);
      if quoted {
        TokensOfPlain(' ', CommandLine(args), token, true);
      } else {
        TokensOfSpace(' ', CommandLine(args), token);
      }
    }
  }

  // ------------------------------------------------------------- nothing is read twice

  /** The characters of some tokens, and one separator behind each. */
  function Size(tokens: seq<string>): nat {
    if tokens == [] then 0 else |tokens[0]| + 1 + Size(tokens[1..])
  }

  lemma SizeFinished(token: string, tokens: seq<string>)
    ensures Size(Finished(token) + tokens) <= |token| + 1 + Size(tokens)
  {
    if token == "" {
      assert Finished(token) + tokens == tokens;
    } else {
      assert (Finished(token) + tokens)[1..] == tokens;
    }
  }

  lemma SizeHead(a: string, args: seq<string>)
    ensures Size([a] + args) == |a| + 1 + Size(args)
  {
    assert ([a] + args)[1..] == args;
  }

  /** What is read of the rest of an argument and the arguments behind it is no larger than they are. */
  lemma {:induction false} ReadingBounded(a: string, args: seq<string>, token: string, quoted: bool)
    ensures Size(Tokens(Text(a, args), token, quoted)) <= |token| + |a| + 1 + Size(args)
    decreases |args|, |a|, 1
  {
    if a == "" {
      EndBounded(args, token, quoted);
    } else if a[0] != BACKSLASH {
      ReadChar(a, args, token, quoted);
      if IsSpace(a[0]) && a[0] != ' ' && !quoted {
        ReadingBounded(a[1..], args, "", false);
        SizeFinished(token, Tokens(Text(a[1..], args), "", false));
      } else {
        ReadingBounded(a[1..], args, token + [a[0]], quoted);
      }
    } else if |a| == 1 {
      assert a == [BACKSLASH];
      LastBounded(args, token, quoted);
    } else {
      PairBounded(a, a[1], a[2..], args, token, quoted);
    }
  }

  lemma {:induction false} EndBounded(args: seq<string>, token: string, quoted: bool)
    ensures Size(Tokens(Text("", args), token, quoted)) <= |token| + 1 + Size(args)
    decreases |args|, 0, 0
  {
    ReadEnd(args, token, quoted);
    if args == [] {
      SizeFinished(token, []);
      assert Finished(token) + [] == Finished(token);
    } else {
      CommandLineStep(args);
      if quoted {
        ReadingBounded(args[0], args[1..], token + " ", true);
      } else {
        ReadingBounded(args[0], args[1..], "", false);
        SizeFinished(token, Tokens(CommandLine(args), "", false));
      }
    }
  }

  lemma {:induction false} LastBounded(args: seq<string>, token: string, quoted: bool)
    ensures Size(Tokens(Text([BACKSLASH], args), token, quoted)) <= |token| + 2 + Size(args)
    decreases |args|, 0, 0
  {
    ReadLastBackslash(args, token, quoted);
    if args == [] {
      SizeFinished(token, []);
      assert Finished(token) + [] == Finished(token);
    } else {
      CommandLineStep(args);
      ReadingBounded(args[0], args[1..], token + " ", quoted);
    }
  }

  lemma {:induction false} PairBounded(a: string, x: char, c: string, args: seq<string>, token: string, quoted: bool)
    requires a == [BACKSLASH, x] + c
    ensures Size(Tokens(Text(a, args), token, quoted)) <= |token| + |a| + 1 + Size(args)
    decreases |args|, |a|, 0
  {
    if !IsMeta(x) {
      ReadLostBackslash(x, c, args, token, quoted);
      ReadingBounded(c, args, token + [x], quoted);
    } else {
      ReadKeptBackslash(x, c, args, token, quoted);
      if x == ' ' && !quoted {
        ReadingBounded(c, args, "", false);
        SizeFinished(token + [BACKSLASH], Tokens(Text(c, args), "", false));
      } else {
        ReadingBounded(c, args, token + [BACKSLASH] + [x], quoted != (x == QUOTE));
      }
    }
  }

  lemma {:induction false} TokensNonEmpty(s: string, token: string, quoted: bool)
    ensures "" !in Tokens(s, token, quoted)
    decreases |s|
  {
    if s != "" {
      if s[0] == QUOTE {
        TokensNonEmpty(s[1..], token + [QUOTE], !quoted);
      } else if s[0] == BACKSLASH {
        if |s| > 1 {
          TokensNonEmpty(s[2..], token + [s[1]], quoted);
        }
      } else if !IsSpace(s[0]) || quoted {
        TokensNonEmpty(s[1..], token + [s[0]], quoted);
      } else {
        TokensNonEmpty(s[1..], "", quoted);
      }
    }
  }

  /** A token begun is not taken back: it starts the first token read. */
  lemma {:induction false} TokenStays(s: string, token: string, quoted: bool)
    requires token != ""
    ensures var got := Tokens(s, token, quoted); got != [] && token <= got[0]
    decreases |s|
  {
    if s != "" {
      if s[0] == QUOTE {
        TokenStays(s[1..], token + [QUOTE], !quoted);
      } else if s[0] == BACKSLASH {
        if |s| > 1 {
          TokenStays(s[2..], token + [s[1]], quoted);
        }
      } else if !IsSpace(s[0]) || quoted {
        TokenStays(s[1..], token + [s[0]], quoted);
      }
    }
  }

  // --------------------------------------------------------------------- round trip

  /** The rest `a` of an argument is read back, and so are the arguments behind it. */
  predicate Survives(a: string, quoted: bool, args: seq<string>) {
    && Kept(a, quoted)
    && (args != [] ==> !QuoteAfter(a, quoted) && "" !in args && AllKept(args))
  }

  /** What the reader makes of them is what was written. */
  predicate ReadBack(a: string, args: seq<string>, token: string, quoted: bool) {
    Tokens(Text(a, args), token, quoted) == [token + a] + args
  }

  predicate Exact(a: string, args: seq<string>, token: string, quoted: bool) {
    ReadBack(a, args, token, quoted) <==> token + a != "" && Survives(a, quoted, args)
  }

  lemma {:induction false} ReadingExact(a: string, args: seq<string>, token: string, quoted: bool)
    ensures Exact(a, args, token, quoted)
    decreases |args|, |a|
  {
    if a == "" {
      if args != [] {
        ReadingExact(args[0], args[1..], "", false);
      }
      EndExact(args, token, quoted);
    } else if a[0] != BACKSLASH {
      ReadingExact(a[1..], args, token + [a[0]], quoted);
      CharExact(a, args, token, quoted);
    } else if |a| == 1 {
      assert a == [BACKSLASH];
      LastExact(args, token, quoted);
    } else {
      assert a == [BACKSLASH, a[1]] + a[2..];
      if IsMeta(a[1]) {
        ReadingExact(a[2..], args, token + [BACKSLASH] + [a[1]], quoted != (a[1] == QUOTE));
        KeptExact(a, a[1], a[2..], args, token, quoted);
      } else {
        LostExact(a, a[1], a[2..], args, token, quoted);
      }
    }
  }

  lemma EndExact(args: seq<string>, token: string, quoted: bool)
    requires args != [] ==> Exact(args[0], args[1..], "", false)
    ensures Exact("", args, token, quoted)
  {
    assert token + "" == token;
    ReadEnd(args, token, quoted);
    if args == [] {
      assert [token] + args == [token];
    } else if quoted {
      TokenStays(CommandLine(args), token + " ", true);
    } else {
      LineExact(args);
      TokensNonEmpty(CommandLine(args), "", false);
      AfterToken(token, Tokens(CommandLine(args), "", false), args);
    }
  }

  /** A whole line is read back exactly if no argument is empty and all are kept. */
  lemma LineExact(args: seq<string>)
    requires args != [] && Exact(args[0], args[1..], "", false)
    ensures Tokens(CommandLine(args), "", false) == args <==> "" !in args && AllKept(args)
  {
    CommandLineStep(args);
    AllKeptHead(args);
    assert "" + args[0] == args[0] && [args[0]] + args[1..] == args;
  }

  lemma AfterToken(token: string, got: seq<string>, args: seq<string>)
    requires "" !in got
    ensures Finished(token) + got == [token] + args <==> token != "" && got == args
  {
    if token == "" {
      assert Finished(token) + got == got;
      assert ([token] + args)[0] == "";
    } else {
      assert ([token] + got)[1..] == got && ([token] + args)[1..] == args;
    }
  }

  lemma CharExact(a: string, args: seq<string>, token: string, quoted: bool)
    requires a != "" && a[0] != BACKSLASH && Exact(a[1..], args, token + [a[0]], quoted)
    ensures Exact(a, args, token, quoted)
  {
    ReadChar(a, args, token, quoted);
    assert token + [a[0]] + a[1..] == token + a;
    if IsSpace(a[0]) && a[0] != ' ' && !quoted {
      SpaceSplits(a, args, token);
    }
  }

  /** Whitespace other than the space splits its argument, outside quotes. */
  lemma SpaceSplits(a: string, args: seq<string>, token: string)
    requires a != ""
    ensures Finished(token) + Tokens(Text(a[1..], args), "", false) != [token + a] + args
  {
    var got := Tokens(Text(a[1..], args), "", false);
    if token == "" {
      ReadingBounded(a[1..], args, "", false);
      SizeHead(token + a, args);
      assert Finished(token) + got == got;
    } else {
      assert (Finished(token) + got)[0] == token && ([token + a] + args)[0] == token + a;
    }
  }

  lemma KeptExact(a: string, x: char, c: string, args: seq<string>, token: string, quoted: bool)
    requires a == [BACKSLASH, x] + c && IsMeta(x)
    requires Exact(c, args, token + [BACKSLASH] + [x], quoted != (x == QUOTE))
    ensures Exact(a, args, token, quoted)
  {
    ReadKeptBackslash(x, c, args, token, quoted);
    assert a[2..] == c && a[1] == x;
    assert token + [BACKSLASH] + [x] + c == token + a;
    if x == ' ' && !quoted {
      var got := Tokens(Text(c, args), "", false);
      assert (Finished(token + [BACKSLASH]) + got)[0] == token + [BACKSLASH];
      assert ([token + a] + args)[0] == token + a;
    }
  }

  lemma LostExact(a: string, x: char, c: string, args: seq<string>, token: string, quoted: bool)
    requires a == [BACKSLASH, x] + c && !IsMeta(x)
    ensures Exact(a, args, token, quoted)
  {
    ReadLostBackslash(x, c, args, token, quoted);
    ReadingBounded(c, args, token + [x], quoted);
    SizeHead(token + a, args);
    assert a[1] == x;
  }

  lemma LastExact(args: seq<string>, token: string, quoted: bool)
    ensures Exact([BACKSLASH], args, token, quoted)
  {
    ReadLastBackslash(args, token, quoted);
    var wanted := [token + [BACKSLASH]] + args;
    assert wanted[0][|token|] == BACKSLASH;
    if args == [] {
      SizeHead(token + [BACKSLASH], []);
      SizeFinished(token, []);
      assert Finished(token) + [] == Finished(token);
    } else {
      TokenStays(CommandLine(args), token + " ", quoted);
    }
  }

  /**
   Escaping each argument, joining with spaces and cutting into tokens gives the arguments back,
   for every list, exactly if none is empty, all of each is kept, and no quote is open at a separator.
   */
  lemma ShellRoundTrip(args: seq<string>)
    ensures Tokens(CommandLine(args), "", false) == args <==> "" !in args && AllKept(args)
  {
    if args != [] {
      ReadingExact(args[0], args[1..], "", false);
      LineExact(args);
    }
  }

  // ----------------------------------------------------------- lists with empty items

  /** All of an argument that is kept joins the token under way. */
  lemma {:induction false} TokensOfKept(a: string, args: seq<string>, token: string, quoted: bool)
    requires Kept(a, quoted)
    ensures Tokens(Text(a, args), token, quoted) == Tokens(Text("", args), token + a, QuoteAfter(a, quoted))
    decreases |a|
  {
    if a == "" {
      assert token + a == token;
    } else if a[0] == BACKSLASH {
      var x, c := a[1], a[2..];
      assert a == [BACKSLASH, x] + c;
      TokensOfKept(c, args, token + [BACKSLASH] + [x], quoted != (x == QUOTE));
      ReadKeptBackslash(x, c, args, token, quoted);
      assert token + [BACKSLASH] + [x] + c == token + a;
    } else {
      TokensOfKept(a[1..], args, token + [a[0]], quoted);
      ReadChar(a, args, token, quoted);
      assert token + [a[0]] + a[1..] == token + a;
    }
  }

  function NonEmpty(args: seq<string>): (r: seq<string>)
    ensures |r| <= |args|
    ensures r == args <==> "" !in args
  {
    if args == [] then [] else Finished(args[0]) + NonEmpty(args[1..])
  }

  /** If all arguments are kept and no quote is open at a separator, exactly the empty ones get lost. */
  lemma {:induction false} TokensOfLine(args: seq<string>)
    requires AllKept(args)
    ensures Tokens(CommandLine(args), "", false) == NonEmpty(args)
  {
    if args != [] {
      var a, rest := args[0], args[1..];
      AllKeptHead(args);
      TokensOfLine(rest);
      CommandLineStep(args);
      TokensOfKept(a, rest, "", false);
      ReadEnd(rest, a, QuoteAfter(a, false));
      assert "" + a == a;
      assert Finished(a) + [] == Finished(a);
    }
  }

  /** No backslash with a double quote right behind it. */
  predicate NoEscapedQuote(a: string) {
    forall i :: 0 < i < |a| && a[i] == QUOTE ==> a[i - 1] != BACKSLASH
  }

  /** Without that no quote is ever opened, and being kept is a matter of each place alone. */
  lemma {:induction false} KeptWithoutQuotes(a: string)
    requires NoEscapedQuote(a)
    ensures Kept(a, false) <==> forall i :: 0 <= i < |a| ==> KeptAt(a, i)
    ensures Kept(a, false) ==> !QuoteAfter(a, false)
    decreases |a|
  {
    if a != "" {
      KeptTail(a);
      KeptWithoutQuotes(a[1..]);
      if a[0] == BACKSLASH && |a| > 1 {
        KeptTail(a[1..]);
        KeptWithoutQuotes(a[2..]);
        assert a[1..][1..] == a[2..] && a[1..][0] == a[1];
      }
    }
  }

  /** A shell character other than the space behind a backslash, and no whitespace but the space. */
  predicate KeptAt(a: string, i: nat)
    requires i < |a|
  {
    if a[i] == BACKSLASH then i + 1 < |a| && IsMeta(a[i + 1]) && a[i + 1] != ' '
    else IsSpace(a[i]) ==> a[i] == ' '
  }

  lemma KeptTail(a: string)
    requires a != ""
    ensures (forall i :: 0 <= i < |a| ==> KeptAt(a, i)) <==> KeptAt(a, 0) && forall i :: 0 <= i < |a[1..]| ==> KeptAt(a[1..], i)
  {
    if KeptAt(a, 0) && forall i :: 0 <= i < |a[1..]| ==> KeptAt(a[1..], i) {
      forall i | 0 <= i < |a| ensures KeptAt(a, i) {
        assert i > 0 ==> KeptAt(a[1..], i - 1);
      }
    }
    if forall i :: 0 <= i < |a| ==> KeptAt(a, i) {
      forall i | 0 <= i < |a[1..]| ensures KeptAt(a[1..], i) {
        assert KeptAt(a, i + 1);
      }
    }
  }

  /** For example, a backslash in front of a letter is taken for an escape when read. */
  lemma BackslashLost()
    ensures Tokens(CommandLine(["a\\b"]), "", false) == ["ab"]
  {
    var s := "a\\b";
    assert s[1..] == "\\b" && s[1..][1..] == "b" && s[1..][1..][1..] == "";
    assert ShellEscaped("") == "";
    assert ShellEscaped("b") == "b" by {
      assert "b"[1..] == "";
    }
    assert ShellEscaped("\\b") == "\\b" by {
      assert "\\b"[1..] == "b";
    }
    assert ShellEscaped(s) == s;
    CommandLineStep([s]);
    assert s[1..][2..] == "";
    assert "" + ['a'] == "a" && "a" + ['b'] == "ab";
  }
}
