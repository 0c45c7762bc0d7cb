/** Command lines for an elevated relaunch (agent/elevate_windows.go), and the
    argument rules of the Microsoft C runtime ("Parsing C command-line
    arguments") that must read them back. */
module WindowsArgs {
  // ---------------------------------------------------------------- the printer

  predicate IsBlank(c: char) {
    c == ' ' || c == '\t'
  }

  predicate NeedsQuotes(arg: string) {
    exists i :: 0 <= i < |arg| && (IsBlank(arg[i]) || arg[i] == '"')
  }

  function EscapeQuotes(arg: string): string {
    if arg == "" then ""
    else (if arg[0] == '"' then "\\\"" else [arg[0]]) + EscapeQuotes(arg[1..])
  }

  function Quote(arg: string): string {
    if arg == "" then "\"\""
    else if NeedsQuotes(arg) then "\"" + EscapeQuotes(arg) + "\""
    else arg
  }

  function QuoteAll(args: seq<string>): seq<string> {
    seq(|args|, i requires 0 <= i < |args| => Quote(args[i]))
  }

  /** strings.Join with a blank. */
  function Join(parts: seq<string>): string {
    if |parts| == 0 then ""
    else if |parts| == 1 then parts[0]
    else parts[0] + " " + Join(parts[1..])
  }

  function CommandLine(args: seq<string>): string {
    Join(QuoteAll(args))
  }

  method JoinWindowsArgs(args: seq<string>) returns (line: string)
    ensures line == CommandLine(args)
  {
    var quoted: seq<string> := [];
    for i := 0 to |args|
      invariant quoted == QuoteAll(args[..i])
    {
      var arg := args[i];
      if arg == "" {
        quoted := quoted + ["\"\""];
      } else if NeedsQuotes(arg) {
        arg := EscapeQuotes(arg);
        quoted := quoted + ["\"" + arg + "\""];
      } else {
        quoted := quoted + [arg];
      }
    }
    assert args[..|args|] == args;
    line := Join(quoted);
  }

  /** An argument is printed as it stands unless it is empty or has a blank, a tab or a double quote;
      then it is printed between double quotes, each of its own with a backslash before it. */
  lemma QuotedExactlyWhenNeeded(arg: string)
    ensures CommandLine([arg]) ==
            if arg != "" && forall i :: 0 <= i < |arg| ==> arg[i] != ' ' && arg[i] != '\t' && arg[i] != '"'
            then arg else "\"" + EscapeQuotes(arg) + "\""
    ensures |EscapeQuotes(arg)| == |arg| + multiset(arg)['"']
  {
    assert QuoteAll([arg]) == [Quote(arg)];
    QuotesEscaped(arg);
  }

  lemma {:induction false} QuotesEscaped(s: string)
    ensures |EscapeQuotes(s)| == |s| + multiset(s)['"']
  {
    if s != "" {
      assert s == [s[0]] + s[1..];
      QuotesEscaped(s[1..]);
    }
  }

  /** Lists are joined with one blank. */
  lemma {:induction false} JoinedByOneBlank(a: seq<string>, b: seq<string>)
    requires a != [] && b != []
    ensures CommandLine(a + b) == CommandLine(a) + " " + CommandLine(b)
  {
    var all := a + b;
    QuoteAllTail(all);
    QuoteAllTail(a);
    if |a| == 1 {
      assert all[1..] == b;
    } else {
      assert all[1..] == a[1..] + b;
      JoinedByOneBlank(a[1..], b);
      Regroup(Quote(a[0]) + " ", CommandLine(a[1..]) + " ", CommandLine(b));
      Regroup(Quote(a[0]) + " ", CommandLine(a[1..]), " ");
      Regroup(Quote(a[0]) + " " + CommandLine(a[1..]), " ", CommandLine(b));
    }
  }

  lemma Regroup(a: string, b: string, c: string)
    ensures (a + b) + c == a + (b + c)
  {
  }

  // ---------------------------------------------------------------- the reader

  /** `text` has been read; `slashes` backslashes are pending until it is known
      whether a double quote follows them. */
  datatype Reader = Between | InArg(text: string, slashes: nat, quoted: bool)

  function Slashes(n: nat): string {
    seq(n, i => '\\')
  }

  /** 2n backslashes before a double quote stand for n and the quote delimits;
      2n+1 stand for n and a literal quote; other backslashes are literal; blanks
      separate arguments outside quotes.  With `pairs`, two double quotes inside a
      quoted part stand for one, as newer runtimes read them. */
  function Parse(s: string, st: Reader, pairs: bool): seq<string>
    decreases |s|, st.Between?
  {
    match st
    case Between =>
      if s == "" then []
      else if IsBlank(s[0]) then Parse(s[1..], Between, pairs)
      else Parse(s, InArg("", 0, false), pairs)
    case InArg(text, n, quoted) =>
      if s == "" then [text + Slashes(n)]
      else if s[0] == '\\' then Parse(s[1..], InArg(text, n + 1, quoted), pairs)
      else if s[0] == '"' then
        var t := text + Slashes(n / 2);
        if n % 2 == 1 then Parse(s[1..], InArg(t + "\"", 0, quoted), pairs)
        else if pairs && quoted && |s| > 1 && s[1] == '"' then Parse(s[2..], InArg(t + "\"", 0, quoted), pairs)
        else Parse(s[1..], InArg(t, 0, !quoted), pairs)
      else
        var t := text + Slashes(n);
        if !quoted && IsBlank(s[0]) then [t] + Parse(s[1..], Between, pairs)
        else Parse(s[1..], InArg(t + [s[0]], 0, quoted), pairs)
  }

  /** No backslash stands directly before a double quote or at the end. */
  predicate Plain(arg: string) {
    forall i :: 0 <= i < |arg| && arg[i] == '\\' ==> i + 1 < |arg| && arg[i + 1] != '"'
  }

  /** Plain but for a single backslash before a double quote at the very end. */
  predicate EndsEscaped(arg: string) {
    |arg| >= 2 && arg[|arg| - 2..] == "\\\"" && Plain(arg[..|arg| - 2])
  }

  /** What the round trip needs of one argument.  The pair rule helps at the end of the line only. */
  predicate Survives(arg: string, last: bool, pairs: bool) {
    NeedsQuotes(arg) ==> Plain(arg) || (pairs && last && EndsEscaped(arg))
  }

  predicate Printable(args: seq<string>, pairs: bool) {
    forall i :: 0 <= i < |args| ==> Survives(args[i], i == |args| - 1, pairs)
  }

  predicate AtBoundary(rest: string) {
    rest == "" || IsBlank(rest[0])
  }

  function AfterBoundary(rest: string, pairs: bool): seq<string> {
    if rest == "" then [] else Parse(rest[1..], Between, pairs)
  }

  lemma SlashesGrow(text: string, n: nat)
    ensures text + Slashes(n + 1) == text + Slashes(n) + "\\"
    ensures text + Slashes(0) == text
  {
  }

  /** Plain, also with n more backslashes in front. */
  predicate PlainAfter(b: string, n: nat) {
    Plain(b) && (n > 0 ==> b != "" && b[0] != '"')
  }

  lemma PlainTail(b: string, n: nat)
    requires b != ""
    ensures PlainAfter(b, n) <==> if b[0] == '"' then n == 0 && Plain(b[1..])
                                  else PlainAfter(b[1..], if b[0] == '\\' then n + 1 else 0)
  {
    assert forall i :: 0 < i < |b| ==> b[i] == b[1..][i - 1];
    assert forall i :: 0 <= i < |b[1..]| ==> b[1..][i] == b[i + 1];
  }

  /** The escaped form of a plain b, read inside quotes with n backslashes pending. */
  lemma {:induction false} BodyReads(b: string, rest: string, text: string, n: nat, pairs: bool)
    requires PlainAfter(b, n)
    ensures Parse(EscapeQuotes(b) + rest, InArg(text, n, true), pairs)
         == Parse(rest, InArg(text + Slashes(n) + b, 0, true), pairs)
  {
    var s := EscapeQuotes(b) + rest;
    SlashesGrow(text, n);
    if b == "" {
      assert s == rest && text + Slashes(n) + b == text;
    } else {
      var tail := EscapeQuotes(b[1..]) + rest;
      assert b == [b[0]] + b[1..];
      PlainTail(b, n);
      if b[0] == '"' {
        assert s == "\\\"" + tail && s[1..][1..] == tail && s[1..][0] == '"';
        SlashesGrow(text, 0);
        BodyReads(b[1..], rest, text + "\"", 0, pairs);
        assert text + "\"" + Slashes(0) + b[1..] == text + Slashes(0) + b;
      } else if b[0] == '\\' {
        assert s == "\\" + tail && s[1..] == tail;
        BodyReads(b[1..], rest, text, n + 1, pairs);
        assert text + Slashes(n + 1) + b[1..] == text + Slashes(n) + b;
      } else {
        assert s == [b[0]] + tail && s[1..] == tail;
        BodyReads(b[1..], rest, text + Slashes(n) + [b[0]], 0, pairs);
        assert text + Slashes(n) + [b[0]] + Slashes(0) + b[1..] == text + Slashes(n) + b;
      }
    }
  }

  /** The closing double quote ends the argument at a boundary. */
  lemma ClosingReads(rest: string, text: string, pairs: bool)
    requires AtBoundary(rest)
    ensures Parse("\"" + rest, InArg(text, 0, true), pairs) == [text] + AfterBoundary(rest, pairs)
  {
    assert ("\"" + rest)[1..] == rest;
    SlashesGrow(text, 0);
  }

  /** Opening a quoted argument. */
  lemma OpeningReads(arg: string, rest: string, pairs: bool)
    requires arg == "" || NeedsQuotes(arg)
    ensures Parse(Quote(arg) + rest, Between, pairs)
         == Parse(EscapeQuotes(arg) + ("\"" + rest), InArg("", 0, true), pairs)
  {
    var (s, body) := (Quote(arg) + rest, EscapeQuotes(arg) + ("\"" + rest));
    assert s == "\"" + body && s[1..] == body && "" + Slashes(0) == "";
    assert Parse(s, InArg("", 0, false), pairs) == Parse(body, InArg("", 0, true), pairs);
  }

  /** An unquoted argument is read as it stands. */
  lemma {:induction false} BareBody(b: string, rest: string, text: string, n: nat, pairs: bool)
    requires !NeedsQuotes(b) && AtBoundary(rest)
    ensures Parse(b + rest, InArg(text, n, false), pairs)
         == [text + Slashes(n) + b] + AfterBoundary(rest, pairs)
  {
    var s := b + rest;
    if b == "" {
      assert s == rest && text + Slashes(n) + b == text + Slashes(n);
    } else {
      assert s[1..] == b[1..] + rest && b == [b[0]] + b[1..];
      assert !NeedsQuotes(b[1..]);
      SlashesGrow(text, n);
      if b[0] == '\\' {
        BareBody(b[1..], rest, text, n + 1, pairs);
        assert text + Slashes(n + 1) + b[1..] == text + Slashes(n) + b;
      } else {
        BareBody(b[1..], rest, text + Slashes(n) + [b[0]], 0, pairs);
        assert text + Slashes(n) + [b[0]] + Slashes(0) + b[1..] == text + Slashes(n) + b;
      }
    }
  }

  lemma OneArgument(arg: string, rest: string, pairs: bool)
    requires (NeedsQuotes(arg) ==> Plain(arg)) && AtBoundary(rest)
    ensures Parse(Quote(arg) + rest, Between, pairs) == [arg] + AfterBoundary(rest, pairs)
  {
    assert "" + Slashes(0) + arg == arg;
    if arg == "" || NeedsQuotes(arg) {
      OpeningReads(arg, rest, pairs);
      BodyReads(arg, "\"" + rest, "", 0, pairs);
      ClosingReads(rest, arg, pairs);
    } else {
      assert (Quote(arg) + rest)[0] == arg[0] && !IsBlank(arg[0]);
      BareBody(arg, rest, "", 0, pairs);
    }
  }

  lemma {:induction false} EscapeQuotesAppend(a: string, b: string)
    ensures EscapeQuotes(a + b) == EscapeQuotes(a) + EscapeQuotes(b)
  {
    if a == "" {
      assert a + b == b;
    } else {
      assert (a + b)[1..] == a[1..] + b;
      EscapeQuotesAppend(a[1..], b);
    }
  }

  /** The escaped form of a backslash and a double quote, and the closing double quote: two
      backslashes make one, and the two double quotes are a pair. */
  lemma EscapedPairReads(text: string)
    ensures Parse("\\\\\"\"", InArg(text, 0, true), true) == [text + "\\\""]
  {
    var (z2, z1, z0) := ("\\\\\"\"", "\\\"\"", "\"\"");
    assert z2[1..] == z1 && z1[1..] == z0 && z0[2..] == "";
    assert Parse(z2, InArg(text, 0, true), true) == Parse(z1, InArg(text, 1, true), true);
    assert Parse(z1, InArg(text, 1, true), true) == Parse(z0, InArg(text, 2, true), true);
    var arg := text + Slashes(1) + "\"";
    assert Parse(z0, InArg(text, 2, true), true) == Parse("", InArg(arg, 0, true), true);
    assert Slashes(1) == "\\" && arg == text + "\\\"" && arg + Slashes(0) == arg;
  }

  lemma EscapedEndReads(arg: string)
    requires EndsEscaped(arg)
    ensures Parse(Quote(arg), Between, true) == [arg]
  {
    var (b, end, z) := (arg[..|arg| - 2], "\\\"", "\\\\\"\"");
    assert arg == b + end && arg[|arg| - 1] == '"';
    EscapeQuotesAppend(b, end);
    EscapedEnd();
    OpeningReads(arg, "", true);
    assert Quote(arg) + "" == Quote(arg) && EscapeQuotes(arg) + ("\"" + "") == EscapeQuotes(b) + z;
    BodyReads(b, z, "", 0, true);
    assert "" + Slashes(0) + b == b;
    EscapedPairReads(b);
  }

  lemma EscapedEnd()
    ensures EscapeQuotes("\\\"") == "\\\\\""
  {
    assert "\\\""[1..] == "\"" && "\""[1..] == "";
  }

  lemma QuoteAllTail(args: seq<string>)
    requires args != []
    ensures QuoteAll(args)[1..] == QuoteAll(args[1..]) && QuoteAll(args)[0] == Quote(args[0])
  {
  }

  // ---------------------------------------------------------------- what does not survive

  /** Two for each backslash, one for each double quote. */
  function Weight(s: string): nat {
    if s == "" then 0
    else (if s[0] == '\\' then 2 else if s[0] == '"' then 1 else 0) + Weight(s[1..])
  }

  lemma {:induction false} WeightAppend(a: string, b: string)
    ensures Weight(a + b) == Weight(a) + Weight(b)
  {
    if a == "" {
      assert a + b == b;
    } else {
      assert (a + b)[1..] == a[1..] + b;
      WeightAppend(a[1..], b);
    }
  }

  lemma {:induction false} WeightOfSlashes(n: nat)
    ensures Weight(Slashes(n)) == 2 * n
  {
    if n > 0 {
      assert Slashes(n)[1..] == Slashes(n - 1);
      WeightOfSlashes(n - 1);
    }
  }

  /** Characters that are neither a backslash nor a double quote: the reader keeps them all, in order. */
  function Ordinary(s: string): nat {
    if s == "" then 0 else (if s[0] == '\\' || s[0] == '"' then 0 else 1) + Ordinary(s[1..])
  }

  lemma {:induction false} OrdinaryAppend(a: string, b: string)
    ensures Ordinary(a + b) == Ordinary(a) + Ordinary(b)
  {
    if a == "" {
      assert a + b == b;
    } else {
      assert (a + b)[1..] == a[1..] + b;
      OrdinaryAppend(a[1..], b);
    }
  }

  /** What a run of n backslashes, then c, adds to the text. */
  lemma Measure(text: string, n: nat, c: string)
    ensures Weight(text + Slashes(n) + c) == Weight(text) + 2 * n + Weight(c)
    ensures Ordinary(text + Slashes(n) + c) == Ordinary(text) + Ordinary(c)
  {
    WeightAppend(text + Slashes(n), c);
    WeightAppend(text, Slashes(n));
    WeightOfSlashes(n);
    OrdinaryAppend(text + Slashes(n), c);
    OrdinaryAppend(text, Slashes(n));
    SlashesAreNotOrdinary(n);
  }

  lemma {:induction false} SlashesAreNotOrdinary(n: nat)
    ensures Ordinary(Slashes(n)) == 0
  {
    if n > 0 {
      assert Slashes(n)[1..] == Slashes(n - 1);
      SlashesAreNotOrdinary(n - 1);
    }
  }

  /** The first argument read has at least the ordinary characters read so far. */
  lemma {:induction false} FirstExtends(s: string, text: string, n: nat, quoted: bool, pairs: bool)
    ensures var r := Parse(s, InArg(text, n, quoted), pairs); r != [] && Ordinary(r[0]) >= Ordinary(text)
    decreases |s|
  {
    if s == "" {
      Measure(text, n, "");
      assert text + Slashes(n) + "" == text + Slashes(n);
    } else if s[0] == '\\' {
      FirstExtends(s[1..], text, n + 1, quoted, pairs);
    } else if s[0] == '"' {
      Measure(text, n / 2, "");
      Measure(text, n / 2, "\"");
      var t := text + Slashes(n / 2);
      assert t + "" == t;
      if n % 2 == 1 {
        FirstExtends(s[1..], t + "\"", 0, quoted, pairs);
      } else if pairs && quoted && |s| > 1 && s[1] == '"' {
        FirstExtends(s[2..], t + "\"", 0, quoted, pairs);
      } else {
        FirstExtends(s[1..], t, 0, !quoted, pairs);
      }
    } else {
      Measure(text, n, "");
      Measure(text, n, [s[0]]);
      assert text + Slashes(n) + "" == text + Slashes(n);
      if quoted || !IsBlank(s[0]) {
        FirstExtends(s[1..], text + Slashes(n) + [s[0]], 0, quoted, pairs);
      }
    }
  }

  /** b, with n backslashes in front, survives inside quotes. */
  predicate Kept(b: string, n: nat, escapedEnd: bool) {
    PlainAfter(b, n)
    || (escapedEnd && n == 1 && b == "\"")
    || (escapedEnd && |b| >= 2 && b[|b| - 2..] == "\\\"" && PlainAfter(b[..|b| - 2], n))
  }

  lemma KeptTail(b: string, n: nat, escapedEnd: bool)
    requires b != ""
    ensures Kept(b, n, escapedEnd) <==>
              if b[0] == '"' then (n == 0 && Kept(b[1..], 0, escapedEnd)) || (escapedEnd && n == 1 && b == "\"")
              else Kept(b[1..], if b[0] == '\\' then n + 1 else 0, escapedEnd)
  {
    PlainTail(b, n);
    if |b| >= 3 {
      var c := b[1..];
      assert c[|c| - 2..] == b[|b| - 2..] && c[..|c| - 2] == b[..|b| - 2][1..];
      PlainTail(b[..|b| - 2], n);
    } else if |b| == 2 {
      assert b[..0] == "" && b[0..] == b && b[1..] == [b[1]] && b == [b[0], b[1]];
    }
  }

  /** What is read at the end of the escaped form, with n backslashes pending. */
  lemma ClosingWeighs(rest: string, text: string, n: nat, quoted: bool, pairs: bool)
    requires AtBoundary(rest)
    ensures var r := Parse("\"" + rest, InArg(text, n, quoted), pairs);
            && r != []
            && (Ordinary(r[0]) == Ordinary(text) ==> Weight(r[0]) == Weight(text) + n)
  {
    assert ("\"" + rest)[1..] == rest;
    var t := text + Slashes(n / 2) + if n % 2 == 1 then "\"" else "";
    Measure(text, n / 2, if n % 2 == 1 then "\"" else "");
    assert text + Slashes(n / 2) + "" == text + Slashes(n / 2);
    BoundaryEnds(rest, t, if n % 2 == 1 then quoted else !quoted, pairs);
  }

  /** At a boundary the argument either ends or takes the blank in. */
  lemma BoundaryEnds(rest: string, text: string, quoted: bool, pairs: bool)
    requires AtBoundary(rest)
    ensures var r := Parse(rest, InArg(text, 0, quoted), pairs);
            r != [] && (Ordinary(r[0]) == Ordinary(text) ==> r[0] == text && (quoted ==> rest == ""))
  {
    assert text + Slashes(0) == text;
    if rest != "" && quoted {
      Measure(text, 0, [rest[0]]);
      FirstExtends(rest[1..], text + [rest[0]], 0, quoted, pairs);
    }
  }

  /** One escaped double quote, with n backslashes pending. */
  lemma EscapedQuoteReads(tail: string, text: string, n: nat, quoted: bool, pairs: bool)
    ensures var t := text + Slashes((n + 1) / 2);
            Parse("\\\"" + tail, InArg(text, n, quoted), pairs)
            == if n % 2 == 0 then Parse(tail, InArg(t + "\"", 0, quoted), pairs)
               else if pairs && quoted && tail != "" && tail[0] == '"' then
                 Parse(tail[1..], InArg(t + "\"", 0, quoted), pairs)
               else Parse(tail, InArg(t, 0, !quoted), pairs)
  {
    var s := "\\\"" + tail;
    assert s[1..] == "\"" + tail && s[1..][1..] == tail ;
    if tail != "" { assert s[1..][2..] == tail[1..]; }
  }

  /** One other character, with n backslashes pending. */
  lemma OtherReads(c: char, tail: string, text: string, n: nat, quoted: bool, pairs: bool)
    requires c != '\\' && c != '"'
    ensures var t := text + Slashes(n);
            Parse([c] + tail, InArg(text, n, quoted), pairs)
            == if !quoted && IsBlank(c) then [t] + Parse(tail, Between, pairs)
               else Parse(tail, InArg(t + [c], 0, quoted), pairs)
  {
    assert ([c] + tail)[1..] == tail;
  }

  /** If the first argument of r is text, n backslashes and what b became, it never outweighs
      them, and, read inside quotes, it weighs as much only if b survives. */
  predicate Weighed(r: seq<string>, b: string, text: string, n: nat, quoted: bool, escapedEnd: bool) {
    && r != []
    && (Ordinary(r[0]) == Ordinary(text) + Ordinary(b) ==>
          && Weight(r[0]) <= Weight(text) + 2 * n + Weight(b)
          && (quoted && Weight(r[0]) == Weight(text) + 2 * n + Weight(b) ==> Kept(b, n, escapedEnd)))
  }

  /** One character of b has been read: text', n' and quoted' are what it made of text, n and quoted. */
  lemma WeighedStep(r: seq<string>, b: string, text: string, n: nat, quoted: bool, text': string, n': nat,
                    quoted': bool, escapedEnd: bool)
    requires b != "" && Weighed(r, b[1..], text', n', quoted', escapedEnd)
    requires Ordinary(text') == Ordinary(text) + Ordinary(b) - Ordinary(b[1..])
    requires Weight(text') + 2 * n' + Weight(b[1..]) <= Weight(text) + 2 * n + Weight(b)
    requires quoted && Weight(text') + 2 * n' + Weight(b[1..]) == Weight(text) + 2 * n + Weight(b) ==>
               quoted' && (Kept(b[1..], n', escapedEnd) ==> Kept(b, n, escapedEnd))
    ensures Weighed(r, b, text, n, quoted, escapedEnd)
  {
  }

  lemma QuoteWeighs(b: string, rest: string, r: seq<string>, text: string, n: nat, quoted: bool, pairs: bool)
    requires b == "\"" && n % 2 == 1 && pairs && quoted && AtBoundary(rest)
    requires r == Parse(rest, InArg(text + Slashes((n + 1) / 2) + "\"", 0, true), pairs)
    ensures Weighed(r, b, text, n, quoted, pairs && rest == "")
  {
    Measure(text, (n + 1) / 2, "\"");
    BoundaryEnds(rest, text + Slashes((n + 1) / 2) + "\"", true, pairs);
    assert Weight(b) == 1 && Ordinary(b) == 0;
  }

  lemma EscapeSplits(b: string, z: string)
    requires b != ""
    ensures EscapeQuotes(b) + z == (if b[0] == '"' then "\\\"" else [b[0]]) + (EscapeQuotes(b[1..]) + z)
  {
  }

  lemma {:induction false} StartsWithQuote(b: string, z: string)
    requires b != "" && b[0] == '"'
    ensures (EscapeQuotes(b[1..]) + z != "" && (EscapeQuotes(b[1..]) + z)[0] == '"')
        <==> b == "\"" && z != "" && z[0] == '"'
  {
    assert b == "\"" <==> b[1..] == "";
  }

  /** Reading the escaped form of b never gains weight while it takes in just the ordinary
      characters of b, and loses none only when b survives. */
  lemma {:induction false} QuotedWeighs(b: string, rest: string, text: string, n: nat, quoted: bool, pairs: bool)
    requires AtBoundary(rest)
    ensures Weighed(Parse(EscapeQuotes(b) + ("\"" + rest), InArg(text, n, quoted), pairs), b, text, n, quoted,
                    pairs && rest == "")
    decreases |b|, 1
  {
    var z := "\"" + rest;
    if b == "" {
      assert EscapeQuotes(b) + z == z;
      ClosingWeighs(rest, text, n, quoted, pairs);
    } else if b[0] == '"' {
      InnerQuoteWeighs(b, rest, text, n, quoted, pairs);
    } else if b[0] == '\\' {
      var tail := EscapeQuotes(b[1..]) + z;
      EscapeSplits(b, z);
      KeptTail(b, n, pairs && rest == "");
      assert ("\\" + tail)[1..] == tail;
      QuotedWeighs(b[1..], rest, text, n + 1, quoted, pairs);
      WeighedStep(Parse("\\" + tail, InArg(text, n, quoted), pairs), b, text, n, quoted, text, n + 1, quoted,
                  pairs && rest == "");
    } else {
      OtherWeighs(b, rest, text, n, quoted, pairs);
    }
  }

  lemma {:induction false} OtherWeighs(b: string, rest: string, text: string, n: nat, quoted: bool, pairs: bool)
    requires b != "" && b[0] != '\\' && b[0] != '"' && AtBoundary(rest)
    ensures Weighed(Parse(EscapeQuotes(b) + ("\"" + rest), InArg(text, n, quoted), pairs), b, text, n, quoted,
                    pairs && rest == "")
    decreases |b|, 0
  {
    var (tail, t) := (EscapeQuotes(b[1..]) + ("\"" + rest), text + Slashes(n));
    var r := Parse([b[0]] + tail, InArg(text, n, quoted), pairs);
    EscapeSplits(b, "\"" + rest);
    KeptTail(b, n, pairs && rest == "");
    OtherReads(b[0], tail, text, n, quoted, pairs);
    Measure(text, n, "");
    Measure(text, n, [b[0]]);
    assert t + "" == t;
    if quoted || !IsBlank(b[0]) {
      QuotedWeighs(b[1..], rest, t + [b[0]], 0, quoted, pairs);
      WeighedStep(r, b, text, n, quoted, t + [b[0]], 0, quoted, pairs && rest == "");
    }
  }

  lemma {:induction false} InnerQuoteWeighs(b: string, rest: string, text: string, n: nat, quoted: bool, pairs: bool)
    requires b != "" && b[0] == '"' && AtBoundary(rest)
    ensures Weighed(Parse(EscapeQuotes(b) + ("\"" + rest), InArg(text, n, quoted), pairs), b, text, n, quoted,
                    pairs && rest == "")
    decreases |b|, 0
  {
    var z := "\"" + rest;
    var (tail, t) := (EscapeQuotes(b[1..]) + z, text + Slashes((n + 1) / 2));
    var r := Parse("\\\"" + tail, InArg(text, n, quoted), pairs);
    EscapeSplits(b, z);
    StartsWithQuote(b, z);
    KeptTail(b, n, pairs && rest == "");
    EscapedQuoteReads(tail, text, n, quoted, pairs);
    Measure(text, (n + 1) / 2, "");
    Measure(text, (n + 1) / 2, "\"");
    assert t + "" == t;
    if n % 2 == 0 {
      QuotedWeighs(b[1..], rest, t + "\"", 0, quoted, pairs);
      WeighedStep(r, b, text, n, quoted, t + "\"", 0, quoted, pairs && rest == "");
    } else if pairs && quoted && b == "\"" {
      assert tail == z && tail[1..] == rest;
      QuoteWeighs(b, rest, r, text, n, quoted, pairs);
    } else {
      QuotedWeighs(b[1..], rest, t, 0, !quoted, pairs);
      WeighedStep(r, b, text, n, quoted, t, 0, !quoted, pairs && rest == "");
    }
  }

  /** An argument that does not survive is not read back, whatever follows it. */
  lemma LostArgument(arg: string, rest: string, pairs: bool)
    requires !Survives(arg, rest == "", pairs) && AtBoundary(rest)
    ensures var r := Parse(Quote(arg) + rest, Between, pairs); r == [] || r[0] != arg
  {
    OpeningReads(arg, rest, pairs);
    QuotedWeighs(arg, rest, "", 0, true, pairs);
  }

  /** The exact domain of the printer, with and without the pair rule: a list reads back if and
      only if every argument that gets quoted is plain, except that with the pair rule the last
      one may end in a single backslash and a double quote. */
  lemma {:induction false} ReadsBackExactlyWhenPrintable(args: seq<string>, pairs: bool)
    ensures Parse(CommandLine(args), Between, pairs) == args <==> Printable(args, pairs)
  {
    if args != [] {
      QuoteAllTail(args);
      var (arg, more) := (args[0], args[1..]);
      assert args == [arg] + more;
      PrintableTail(args, pairs);
      var rest := if more == [] then "" else " " + CommandLine(more);
      assert CommandLine(args) == Quote(arg) + rest;
      if !Survives(arg, more == [], pairs) {
        LostArgument(arg, rest, pairs);
      } else if NeedsQuotes(arg) && !Plain(arg) {
        assert Quote(arg) + rest == Quote(arg);
        EscapedEndReads(arg);
      } else {
        OneArgument(arg, rest, pairs);
        if more != [] {
          assert rest[1..] == CommandLine(more);
          ReadsBackExactlyWhenPrintable(more, pairs);
        }
      }
    }
  }

  lemma PrintableTail(args: seq<string>, pairs: bool)
    requires args != []
    ensures Printable(args, pairs) <==> Survives(args[0], |args| == 1, pairs) && Printable(args[1..], pairs)
  {
    var more := args[1..];
    assert forall i :: 0 < i < |args| ==> args[i] == more[i - 1];
    assert forall i :: 0 <= i < |more| ==> more[i] == args[i + 1];
  }

  /** Under the backslash rules, in particular: every list whose quoted arguments are plain reads back. */
  lemma CommandLineRoundTrip(args: seq<string>, pairs: bool)
    requires forall i :: 0 <= i < |args| && NeedsQuotes(args[i]) ==> Plain(args[i])
    ensures Parse(CommandLine(args), Between, pairs) == args
  {
    ReadsBackExactlyWhenPrintable(args, pairs);
  }

  /** A directory name with a blank and a closing backslash is the everyday list that does not
      read back under either rule. */
  lemma TrailingBackslashIsLost(pairs: bool)
    ensures Parse(CommandLine(["C:\\My Dir\\", "x"]), Between, pairs) != ["C:\\My Dir\\", "x"]
  {
    var (arg, args) := ("C:\\My Dir\\", ["C:\\My Dir\\", "x"]);
    assert IsBlank(arg[5]) && arg[9] == '\\' && |arg| == 10;
    assert args[0] == arg && !Survives(args[0], false, pairs);
    ReadsBackExactlyWhenPrintable(args, pairs);
  }

  /** A lone backslash and double quote is read back with the pair rule only. */
  lemma PairRuleReadsMore()
    ensures Parse(CommandLine(["\\\""]), Between, true) == ["\\\""]
    ensures Parse(CommandLine(["\\\""]), Between, false) != ["\\\""]
  {
    var arg := "\\\"";
    assert arg[0] == '\\' && arg[1] == '"' && arg[..0] == "" && arg[0..] == arg;
    assert NeedsQuotes(arg) && !Plain(arg) && EndsEscaped(arg) && [arg][0] == arg;
    assert !Survives([arg][0], true, false);
    ReadsBackExactlyWhenPrintable([arg], true);
    ReadsBackExactlyWhenPrintable([arg], false);
  }
}
