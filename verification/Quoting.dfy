/** Quoting of Windows command line arguments, against the parsing rule of the Microsoft C runtime. */
module Quoting {

  function Repeat(c: char, n: nat): (s: string)
    ensures |s| == n && forall i | 0 <= i < n :: s[i] == c
  {
    seq(n, _ => c)
  }

  predicate NeedsQuotes(s: string) {
    exists i :: 0 <= i < |s| && (s[i] == ' ' || s[i] == '\t' || s[i] == '"')
  }

  /** The quoted text from here on, `pending` backslashes being held back, up to the closing quote. */
  function QuoteFrom(s: string, pending: nat): string {
    if s == [] then Repeat('\\', 2 * pending) + "\""
    else if s[0] == '\\' then QuoteFrom(s[1..], pending + 1)
    else if s[0] == '"' then Repeat('\\', 2 * pending + 1) + "\"" + QuoteFrom(s[1..], 0)
    else Repeat('\\', pending) + [s[0]] + QuoteFrom(s[1..], 0)
  }

  function Quote(s: string): string {
    if s == "" then "\"\"" else if !NeedsQuotes(s) then s else "\"" + QuoteFrom(s, 0)
  }

  function QuoteAll(args: seq<string>): string {
    if args == [] then ""
    else if |args| == 1 then Quote(args[0])
    else Quote(args[0]) + " " + QuoteAll(args[1..])
  }

  // ---- the loops ----

  method QuoteArg(s: string) returns (out: string)
    ensures out == Quote(s)
  {
    if s == "" {
      return "\"\"";
    }
    if !NeedsQuotes(s) {
      return s;
    }
    out := "\"";
    var backslashes := 0;
    for i := 0 to |s|
      invariant backslashes >= 0
      invariant out + QuoteFrom(s[i..], backslashes) == "\"" + QuoteFrom(s, 0)
    {
      assert s[i..][1..] == s[i + 1..];
      if s[i] == '\\' {
        backslashes := backslashes + 1;
      } else if s[i] == '"' {
        out := out + Repeat('\\', 2 * backslashes + 1) + "\"";
        backslashes := 0;
      } else {
        if backslashes > 0 {
          out := out + Repeat('\\', backslashes);
          backslashes := 0;
        }
        out := out + [s[i]];
      }
    }
    if backslashes > 0 {
      out := out + Repeat('\\', 2 * backslashes);
    }
    out := out + "\"";
  }

  lemma NoArguments()
    ensures QuoteAll([]) == ""
  {
  }

  /** The first of the remaining arguments, and the others. */
  lemma QuoteAllNext(args: seq<string>, i: nat)
    requires i < |args|
    ensures QuoteAll(args[i..]) == Quote(args[i]) + if i + 1 == |args| then "" else " " + QuoteAll(args[i + 1..])
  {
    hide Quote;
    assert args[i..][1..] == args[i + 1..] && args[i..][0] == args[i];
    assert i + 1 == |args| ==> |args[i..]| == 1 && Quote(args[i]) + "" == Quote(args[i]);
    if i + 1 < |args| {
      assert Quote(args[i]) + " " + QuoteAll(args[i + 1..]) == Quote(args[i]) + (" " + QuoteAll(args[i + 1..]));
    }
  }

  method QuoteArgs(args: seq<string>) returns (out: string)
    ensures out == QuoteAll(args)
  {
    hide Quote, QuoteAll;
    out := "";
    NoArguments();
    for i := 0 to |args|
      invariant if i == 0 then out == ""
                else if i == |args| then out == QuoteAll(args)
                else out + " " + QuoteAll(args[i..]) == QuoteAll(args)
    {
      if i > 0 {
        out := out + " ";
      }
      assert out + QuoteAll(args[i..]) == QuoteAll(args) by {
        assert args[0..] == args && "" + QuoteAll(args) == QuoteAll(args);
      }
      var q := QuoteArg(args[i]);
      QuoteAllNext(args, i);
      out := out + q;
    }
  }

  // ---- the parser of the Microsoft C runtime ----

  function Backslashes(s: string): (n: nat)
    ensures n <= |s| && forall i | 0 <= i < n :: s[i] == '\\'
    ensures n < |s| ==> s[n] != '\\'
  {
    if s == "" || s[0] != '\\' then 0 else 1 + Backslashes(s[1..])
  }

  predicate IsBlank(c: char) {
    c == ' ' || c == '\t'
  }

  /** One argument from here on, and the rest of the line. Backslashes are literal unless a quote follows: then
    * each pair is one backslash, and an odd one makes the quote literal. An unescaped quote opens or closes a
    * quoted part; where `doubled` holds, two of them inside a quoted part are one literal quote. */
  function ParseArg(s: string, quoted: bool, doubled: bool): (string, string)
    decreases |s|
  {
    if s == "" then ("", "")
    else if !quoted && IsBlank(s[0]) then ("", s)
    else
      var n := Backslashes(s);
      if n > 0 then
        var next := s[n..];
        if next != "" && next[0] == '"' then
          if n % 2 == 1 then
            var (arg, rest) := ParseArg(next[1..], quoted, doubled);
            (Repeat('\\', n / 2) + "\"" + arg, rest)
          else
            var (arg, rest) := ParseArg(next, quoted, doubled);
            (Repeat('\\', n / 2) + arg, rest)
        else
          var (arg, rest) := ParseArg(next, quoted, doubled);
          (Repeat('\\', n) + arg, rest)
      else if s[0] == '"' then
        if quoted && doubled && |s| > 1 && s[1] == '"' then
          var (arg, rest) := ParseArg(s[2..], quoted, doubled);
          ("\"" + arg, rest)
        else ParseArg(s[1..], !quoted, doubled)
      else
        var (arg, rest) := ParseArg(s[1..], quoted, doubled);
        ([s[0]] + arg, rest)
  }

  lemma {:induction false} ParseShrinks(s: string, quoted: bool, doubled: bool)
    ensures |ParseArg(s, quoted, doubled).1| <= |s|
    ensures s != "" && !(!quoted && IsBlank(s[0])) ==> |ParseArg(s, quoted, doubled).1| < |s|
    decreases |s|
  {
    if s != "" && !(!quoted && IsBlank(s[0])) {
      var n := Backslashes(s);
      if n > 0 {
        ParseShrinks(s[n..], quoted, doubled);
        if n < |s| {
          ParseShrinks(s[n..][1..], quoted, doubled);
        }
      } else {
        ParseShrinks(s[1..], quoted, doubled);
        ParseShrinks(s[1..], !quoted, doubled);
        if |s| > 1 {
          ParseShrinks(s[2..], quoted, doubled);
        }
      }
    }
  }

  function SkipBlanks(s: string): (r: string)
    ensures |r| <= |s| && (r != "" ==> !IsBlank(r[0]))
  {
    if s != "" && IsBlank(s[0]) then SkipBlanks(s[1..]) else s
  }

  /** All arguments of a command line. */
  function ParseLine(s: string, doubled: bool): seq<string>
    decreases |s|
  {
    var t := SkipBlanks(s);
    if t == "" then []
    else
      var (arg, rest) := ParseArg(t, false, doubled);
      ParseShrinks(t, false, doubled);
      [arg] + ParseLine(rest, doubled)
  }

  // ---- the round trip ----

  /** The text after an argument: the end, or a blank. */
  predicate Ends(rest: string) {
    rest == "" || IsBlank(rest[0])
  }

  lemma {:induction false} BackslashesOf(n: nat, t: string)
    requires t == "" || t[0] != '\\'
    ensures Backslashes(Repeat('\\', n) + t) == n
  {
    if n > 0 {
      BackslashesOf(n - 1, t);
      assert (Repeat('\\', n) + t)[1..] == Repeat('\\', n - 1) + t;
    }
  }

  lemma ParseBackslashes(n: nat, t: string, quoted: bool, doubled: bool)
    requires n > 0 && (t == "" || t[0] != '\\')
    ensures ParseArg(Repeat('\\', n) + t, quoted, doubled) ==
            if t != "" && t[0] == '"' then
              if n % 2 == 1 then
                var (arg, rest) := ParseArg(t[1..], quoted, doubled);
                (Repeat('\\', n / 2) + "\"" + arg, rest)
              else
                var (arg, rest) := ParseArg(t, quoted, doubled);
                (Repeat('\\', n / 2) + arg, rest)
            else
              var (arg, rest) := ParseArg(t, quoted, doubled);
              (Repeat('\\', n) + arg, rest)
  {
    BackslashesOf(n, t);
    var s := Repeat('\\', n) + t;
    assert s[n..] == t;
  }

  /** The closing quote is read as one: nothing follows it but the end or a blank. */
  lemma ParseClose(n: nat, rest: string, doubled: bool)
    requires Ends(rest)
    ensures ParseArg(Repeat('\\', 2 * n) + "\"" + rest, true, doubled) == (Repeat('\\', n), rest)
  {
    var t := "\"" + rest;
    assert t[1..] == rest;
    assert Backslashes(t) == 0;
    assert ParseArg(t, true, doubled) == ("", rest);
    assert Repeat('\\', 2 * n) + "\"" + rest == Repeat('\\', 2 * n) + t;
    if n > 0 {
      ParseBackslashes(2 * n, t, true, doubled);
      assert Repeat('\\', n) + "" == Repeat('\\', n);
    } else {
      assert Repeat('\\', 0) + t == t;
    }
  }

  lemma ParsePlain(n: nat, c: char, t: string, quoted: bool, doubled: bool)
    requires c != '\\' && c != '"' && (quoted || !IsBlank(c))
    ensures ParseArg(Repeat('\\', n) + [c] + t, quoted, doubled) ==
            var (arg, rest) := ParseArg(t, quoted, doubled);
            (Repeat('\\', n) + [c] + arg, rest)
  {
    var u := [c] + t;
    assert u[1..] == t && Backslashes(u) == 0;
    assert Repeat('\\', n) + [c] + t == Repeat('\\', n) + u;
    var (arg, rest) := ParseArg(t, quoted, doubled);
    assert ParseArg(u, quoted, doubled) == ([c] + arg, rest);
    assert Repeat('\\', n) + [c] + arg == Repeat('\\', n) + ([c] + arg);
    if n > 0 {
      ParseBackslashes(n, u, quoted, doubled);
    } else {
      assert Repeat('\\', 0) + u == u && Repeat('\\', 0) + ([c] + arg) == [c] + arg;
    }
  }

  lemma ParseEscaped(n: nat, t: string, doubled: bool)
    ensures ParseArg(Repeat('\\', 2 * n + 1) + "\"" + t, true, doubled) ==
            var (arg, rest) := ParseArg(t, true, doubled);
            (Repeat('\\', n) + "\"" + arg, rest)
  {
    hide ParseArg;
    var u := "\"" + t;
    assert u[1..] == t;
    assert (2 * n + 1) % 2 == 1 && (2 * n + 1) / 2 == n;
    assert Repeat('\\', 2 * n + 1) + "\"" + t == Repeat('\\', 2 * n + 1) + u;
    ParseBackslashes(2 * n + 1, u, true, doubled);
  }

  lemma NoRepeat(c: char)
    ensures Repeat(c, 0) == ""
  {
  }

  lemma OneMore(c: char, n: nat)
    ensures Repeat(c, n) + [c] == Repeat(c, n + 1)
  {
  }

  /** The text that quoting produces, followed by `rest`, cut at its first character. */
  lemma QuoteFromParts(s: string, pending: nat, rest: string)
    ensures s == "" ==> QuoteFrom(s, pending) + rest == Repeat('\\', 2 * pending) + "\"" + rest
    ensures s != "" && s[0] == '\\' ==> QuoteFrom(s, pending) == QuoteFrom(s[1..], pending + 1)
    ensures s != "" && s[0] == '"' ==>
              QuoteFrom(s, pending) + rest == Repeat('\\', 2 * pending + 1) + "\"" + (QuoteFrom(s[1..], 0) + rest)
    ensures s != "" && s[0] != '\\' && s[0] != '"' ==>
              QuoteFrom(s, pending) + rest == Repeat('\\', pending) + [s[0]] + (QuoteFrom(s[1..], 0) + rest)
  {
    hide Repeat;
    if s == "" {
    } else if s[0] == '"' {
      assert QuoteFrom(s, pending) + rest == Repeat('\\', 2 * pending + 1) + "\"" + (QuoteFrom(s[1..], 0) + rest);
    } else if s[0] != '\\' {
      assert QuoteFrom(s, pending) + rest == Repeat('\\', pending) + [s[0]] + (QuoteFrom(s[1..], 0) + rest);
    }
  }

  /** Reading the quoted text gives back the held-back backslashes and the rest of the argument. */
  lemma {:induction false} ParseQuoted(s: string, pending: nat, rest: string, doubled: bool)
    requires Ends(rest)
    ensures ParseArg(QuoteFrom(s, pending) + rest, true, doubled) == (Repeat('\\', pending) + s, rest)
    decreases |s|
  {
    hide ParseArg, Repeat, QuoteFrom;
    QuoteFromParts(s, pending, rest);
    NoRepeat('\\');
    if s == "" {
      ParseClose(pending, rest, doubled);
      assert Repeat('\\', pending) + s == Repeat('\\', pending);
    } else {
      assert s == [s[0]] + s[1..];
      if s[0] == '\\' {
        ParseQuoted(s[1..], pending + 1, rest, doubled);
        OneMore('\\', pending);
        assert Repeat('\\', pending) + s == Repeat('\\', pending) + [s[0]] + s[1..];
      } else {
        ParseQuoted(s[1..], 0, rest, doubled);
        assert "" + s[1..] == s[1..];
        ParseQuotedChar(s, pending, rest, doubled);
      }
    }
  }

  lemma ParseQuotedChar(s: string, pending: nat, rest: string, doubled: bool)
    requires s != "" && s[0] != '\\'
    requires ParseArg(QuoteFrom(s[1..], 0) + rest, true, doubled) == (s[1..], rest)
    ensures ParseArg(QuoteFrom(s, pending) + rest, true, doubled) == (Repeat('\\', pending) + s, rest)
  {
    hide ParseArg, Repeat, QuoteFrom;
    QuoteFromParts(s, pending, rest);
    if s[0] == '"' {
      ParseEscaped(pending, QuoteFrom(s[1..], 0) + rest, doubled);
    } else {
      ParsePlain(pending, s[0], QuoteFrom(s[1..], 0) + rest, true, doubled);
    }
    assert Repeat('\\', pending) + s == Repeat('\\', pending) + [s[0]] + s[1..];
  }

  lemma BareParts(s: string, n: nat)
    requires !NeedsQuotes(s) && n < |s|
    ensures s[n] != '"' && !IsBlank(s[n]) && !NeedsQuotes(s[n + 1..])
  {
    var u := s[n + 1..];
    assert forall i | 0 <= i < |s| :: s[i] != ' ' && s[i] != '\t' && s[i] != '"';
    assert forall i | 0 <= i < |u| :: u[i] == s[n + 1 + i];
  }

  lemma LeadingBackslashes(s: string)
    ensures s == Repeat('\\', Backslashes(s)) + s[Backslashes(s)..]
  {
  }

  /** An argument without blanks and quotes reads as itself, backslashes and all. */
  lemma {:induction false} ParseBare(s: string, rest: string, doubled: bool)
    requires !NeedsQuotes(s) && Ends(rest)
    ensures ParseArg(s + rest, false, doubled) == (s, rest)
    decreases |s|
  {
    hide ParseArg, NeedsQuotes, Repeat;
    if s == "" {
      assert s + rest == rest;
      ParseEnd(rest, doubled);
    } else {
      var n := Backslashes(s);
      LeadingBackslashes(s);
      if n == |s| {
        ParseEnd(rest, doubled);
        ParseBackslashes(n, rest, false, doubled);
        assert s[n..] == "" && Repeat('\\', n) + "" == Repeat('\\', n);
        assert Repeat('\\', n) == s;
      } else {
        var u := s[n + 1..];
        BareParts(s, n);
        ParseBare(u, rest, doubled);
        ParsePlain(n, s[n], u + rest, false, doubled);
        assert s[n..] == [s[n]] + u;
        assert s == Repeat('\\', n) + [s[n]] + u;
        assert s + rest == Repeat('\\', n) + [s[n]] + (u + rest);
      }
    }
  }

  lemma ParseEnd(rest: string, doubled: bool)
    requires Ends(rest)
    ensures ParseArg(rest, false, doubled) == ("", rest)
  {
  }

  lemma ParseOpen(t: string, doubled: bool)
    ensures ParseArg("\"" + t, false, doubled) == ParseArg(t, true, doubled)
  {
    var s := "\"" + t;
    assert s[1..] == t && Backslashes(s) == 0;
  }

  /** One quoted argument reads back as the argument. */
  lemma QuoteParses(s: string, rest: string, doubled: bool)
    requires Ends(rest)
    ensures ParseArg(Quote(s) + rest, false, doubled) == (s, rest)
    ensures Quote(s) != "" && !IsBlank(Quote(s)[0])
  {
    hide ParseArg, QuoteFrom, Repeat;
    NoRepeat('\\');
    if s == "" {
      ParseClose(0, rest, doubled);
      ParseOpen("\"" + rest, doubled);
      assert "" + "\"" + rest == "\"" + rest;
      assert "\"\"" + rest == "\"" + ("\"" + rest);
    } else if !NeedsQuotes(s) {
      ParseBare(s, rest, doubled);
    } else {
      ParseQuoted(s, 0, rest, doubled);
      ParseOpen(QuoteFrom(s, 0) + rest, doubled);
      assert Quote(s) + rest == "\"" + (QuoteFrom(s, 0) + rest);
      assert "" + s == s;
    }
  }

  /** The quoting round trip: for every list of arguments, with any mix of blanks, quotes and runs of backslashes,
    * parsing the quoted command line gives back exactly the list, under either reading of doubled quotes. */
  lemma {:induction false} QuotingRoundTrip(args: seq<string>, doubled: bool)
    ensures ParseLine(QuoteAll(args), doubled) == args
    decreases |args|
  {
    hide ParseArg, Quote;
    if args == [] {
    } else if |args| == 1 {
      QuoteParses(args[0], "", doubled);
      assert Quote(args[0]) + "" == Quote(args[0]);
      assert ParseLine("", doubled) == [];
    } else {
      var rest := " " + QuoteAll(args[1..]);
      QuoteParses(args[0], rest, doubled);
      QuotingRoundTrip(args[1..], doubled);
      var line := QuoteAll(args);
      assert line == Quote(args[0]) + rest && line[0] == Quote(args[0])[0];
      assert rest[1..] == QuoteAll(args[1..]);
      assert SkipBlanks(line) == line;
      SkipOne(rest, doubled);
      assert args == [args[0]] + args[1..];
    }
  }

  lemma SkipOne(s: string, doubled: bool)
    requires s != "" && IsBlank(s[0])
    ensures ParseLine(s, doubled) == ParseLine(s[1..], doubled)
  {
    hide ParseArg;
  }

  /** Only arguments that need it are quoted: one with a character, and without blank, tab and quote, is written as it
    * is. */
  lemma PlainIff(s: string)
    ensures Quote(s) == s <==> s != "" && ' ' !in s && '\t' !in s && '"' !in s
    ensures Quote(s) != s ==> |Quote(s)| >= |s| + 2 && Quote(s)[0] == '"'
  {
    hide QuoteFrom;
    QuoteFromGrows(s, 0);
  }

  lemma {:induction false} QuoteFromGrows(s: string, pending: nat)
    ensures |QuoteFrom(s, pending)| >= |s| + pending + 1
    decreases |s|
  {
    if s != "" {
      QuoteFromGrows(s[1..], if s[0] == '\\' then pending + 1 else 0);
    }
  }
}
