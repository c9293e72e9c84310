/** The Windows command line: quoting and joining arguments, and splitting the line again. */
module ArgCodec {
  predicate IsBlank(c: char) {
    c == ' ' || c == '\t'
  }

  function Slashes(n: nat): (s: string)
    ensures |s| == n
  {
    seq(n, i requires 0 <= i => '\\')
  }

  predicate NeedsQuotes(value: string) {
    exists i :: 0 <= i < |value| && (IsBlank(value[i]) || value[i] == '"')
  }

  // ---------- quoting ----------

  /** The rest of a quoted argument, when `n` backslashes have been seen and not written yet. */
  function QuoteRest(value: string, n: nat): string {
    if value == "" then Slashes(n * 2) + "\""
    else if value[0] == '\\' then QuoteRest(value[1..], n + 1)
    else if value[0] == '"' then Slashes(n * 2 + 1) + "\"" + QuoteRest(value[1..], 0)
    else Slashes(n) + [value[0]] + QuoteRest(value[1..], 0)
  }

  function Quote(value: string): string {
    if value == "" then "\"\"" else if !NeedsQuotes(value) then value else "\"" + QuoteRest(value, 0)
  }

  /** The line up to its terminating zero, as the parser sees it. */
  function Cut(s: string): string {
    if s == "" || s[0] == '\0' then "" else [s[0]] + Cut(s[1..])
  }

  function Join(args: seq<string>): string {
    if args == [] then "" else if |args| == 1 then Quote(args[0]) else Quote(args[0]) + " " + Join(args[1..])
  }

  // ---------- parsing ----------

  /** Number of backslashes at the front. */
  function Leading(s: string): (n: nat)
    ensures n <= |s| && s[..n] == Slashes(n) && (n < |s| ==> s[n] != '\\')
  {
    if s == "" || s[0] != '\\' then 0
    else
      assert s[1..][..Leading(s[1..])] == Slashes(Leading(s[1..]));
      1 + Leading(s[1..])
  }

  /** One argument from the front of `s`, and what is left. */
  function ParseArg(s: string, quoted: bool): (r: (string, string))
    ensures |r.1| <= |s| && (s != "" && (quoted || !IsBlank(s[0])) ==> |r.1| < |s|)
    decreases |s|
  {
    if s == "" || (!quoted && IsBlank(s[0])) then ("", s)
    else
      var n := Leading(s);
      if n == |s| then (Slashes(n), "")
      else if s[n] == '"' then
        var rest := ParseArg(s[n + 1..], if n % 2 == 1 then quoted else !quoted);
        (Slashes(n / 2) + (if n % 2 == 1 then "\"" else "") + rest.0, rest.1)
      else
        var rest := ParseArg(s[n + 1..], quoted);
        (Slashes(n) + [s[n]] + rest.0, rest.1)
  }

  function SkipBlanks(s: string): (r: string)
    ensures |r| <= |s| && (r != "" ==> !IsBlank(r[0]))
  {
    if s != "" && IsBlank(s[0]) then SkipBlanks(s[1..]) else s
  }

  function Parse(s: string): seq<string>
    decreases |s|
  {
    var t := SkipBlanks(s);
    if t == "" then []
    else
      var arg := ParseArg(t, false);
      [arg.0] + Parse(arg.1)
  }

  // ---------- one step of the parser ----------

  lemma {:induction false} LeadingOf(n: nat, rest: string)
    requires rest == "" || rest[0] != '\\'
    ensures Leading(Slashes(n) + rest) == n
    decreases n
  {
    var s := Slashes(n) + rest;
    if n == 0 {
      assert s == rest;
    } else {
      LeadingOf(n - 1, rest);
      assert s[0] == '\\' && s[1..] == Slashes(n - 1) + rest;
    }
  }

  /** The parser turns `text` into `value` and leaves `rest`. */
  ghost predicate Parses(text: string, quoted: bool, value: string, rest: string) {
    ParseArg(text, quoted).0 == value && ParseArg(text, quoted).1 == rest
  }

  /** `n` backslashes and a quote: half of them, and a literal quote or a change of mode. */
  lemma StepQuote(text: string, n: nat, body: string, quoted: bool, value: string, rest: string)
    requires text == Slashes(n) + "\"" + body && Parses(body, if n % 2 == 1 then quoted else !quoted, value, rest)
    ensures Parses(text, quoted, Slashes(n / 2) + (if n % 2 == 1 then "\"" else "") + value, rest)
  {
    assert text == Slashes(n) + ("\"" + body);
    LeadingOf(n, "\"" + body);
    assert text[n] == '"' && text[n + 1..] == body;
    assert !IsBlank(text[0]) by { if n > 0 { assert text[0] == Slashes(n)[0]; } }
  }

  /** `n` backslashes and any other character stand for themselves. */
  lemma StepChar(text: string, n: nat, c: char, body: string, quoted: bool, value: string, rest: string)
    requires c != '\\' && c != '"' && (n > 0 || quoted || !IsBlank(c))
    requires text == Slashes(n) + [c] + body && Parses(body, quoted, value, rest)
    ensures Parses(text, quoted, Slashes(n) + [c] + value, rest)
  {
    assert text == Slashes(n) + ([c] + body);
    LeadingOf(n, [c] + body);
    assert text[n] == c && text[n + 1..] == body;
    if n > 0 { assert text[0] == Slashes(n)[0] == '\\'; } else { assert text[0] == c; }
    assert quoted || (text[0] != ' ' && text[0] != '\t');
    StepPlain(text, n, c, body, quoted);
  }

  /** One step of the parser over backslashes that no quote follows. */
  lemma StepPlain(text: string, n: nat, c: char, body: string, quoted: bool)
    requires c != '\\' && c != '"' && text != "" && (quoted || !IsBlank(text[0]))
    requires Leading(text) == n < |text| && text[n] == c && text[n + 1..] == body
    ensures ParseArg(text, quoted) == (Slashes(n) + [c] + ParseArg(body, quoted).0, ParseArg(body, quoted).1)
  {
  }

  lemma StepEnd(n: nat, quoted: bool)
    ensures Parses(Slashes(n), quoted, Slashes(n), "")
  {
    LeadingOf(n, "");
    assert Slashes(n) + "" == Slashes(n);
    if n > 0 { assert Slashes(n)[0] == '\\'; }
  }

  /** The parser stops in front of a separator or at the end. */
  ghost predicate Ends(rest: string) {
    rest == "" || IsBlank(rest[0])
  }

  lemma StopsAt(rest: string)
    requires Ends(rest)
    ensures Parses(rest, false, "", rest)
  {
  }

  // ---------- quoted arguments ----------

  lemma Half(n: nat)
    ensures n * 2 / 2 == n && n * 2 % 2 == 0 && (n * 2 + 1) / 2 == n && (n * 2 + 1) % 2 == 1
  {
  }

  lemma QuotedEnd(text: string, n: nat, rest: string)
    requires Ends(rest) && text == Slashes(n * 2) + "\"" + rest
    ensures Parses(text, true, Slashes(n), rest)
  {
    Half(n);
    StopsAt(rest);
    StepQuote(text, n * 2, rest, true, "", rest);
    assert Slashes(n) + "" + "" == Slashes(n);
  }

  lemma QuotedQuote(text: string, n: nat, body: string, value: string, rest: string)
    requires Parses(body, true, value, rest) && text == Slashes(n * 2 + 1) + "\"" + body
    ensures Parses(text, true, Slashes(n) + ("\"" + value), rest)
  {
    Half(n);
    StepQuote(text, n * 2 + 1, body, true, value, rest);
    Appended(n, '"', value);
  }

  lemma QuotedChar(text: string, n: nat, c: char, body: string, value: string, rest: string)
    requires c != '\\' && c != '"' && Parses(body, true, value, rest) && text == Slashes(n) + [c] + body
    ensures Parses(text, true, Slashes(n) + ([c] + value), rest)
  {
    StepChar(text, n, c, body, true, value, rest);
    Appended(n, c, value);
  }

  lemma Appended(n: nat, c: char, tail: string)
    ensures Slashes(n) + [c] + tail == Slashes(n) + ([c] + tail)
  {
  }

  lemma QuoteRestStep(c: char, tail: string, n: nat, rest: string)
    requires c != '\\'
    ensures QuoteRest([c] + tail, n) + rest ==
      (if c == '"' then Slashes(n * 2 + 1) else Slashes(n)) + [c] + (QuoteRest(tail, 0) + rest)
  {
    assert ([c] + tail)[1..] == tail;
  }

  lemma RestSlash(tail: string, n: nat)
    ensures QuoteRest(['\\'] + tail, n) == QuoteRest(tail, n + 1)
    ensures Slashes(n + 1) + tail == Slashes(n) + (['\\'] + tail)
  {
    assert (['\\'] + tail)[1..] == tail;
  }

  /** Quoted text in front of a separator parses back, with the backslashes that were held back. */
  lemma {:induction false} QuotedParses(value: string, n: nat, rest: string, text: string, result: string)
    requires Ends(rest) && text == QuoteRest(value, n) + rest && result == Slashes(n) + value
    ensures Parses(text, true, result, rest)
    decreases |value|
  {
    if value == "" {
      QuotedEnd(text, n, rest);
      assert result == Slashes(n);
    } else {
      var c, tail := value[0], value[1..];
      assert value == [c] + tail;
      if c == '\\' {
        RestSlash(tail, n);
        QuotedParses(tail, n + 1, rest, text, result);
      } else {
        var body := QuoteRest(tail, 0) + rest;
        assert Slashes(0) + tail == tail;
        QuotedParses(tail, 0, rest, body, tail);
        QuoteRestStep(c, tail, n, rest);
        if c == '"' { QuotedQuote(text, n, body, tail, rest); } else { QuotedChar(text, n, c, body, tail, rest); }
      }
    }
  }

  // ---------- plain arguments ----------

  ghost predicate IsPlain(value: string) {
    forall i :: 0 <= i < |value| ==> !IsBlank(value[i]) && value[i] != '"'
  }

  ghost predicate EndsInSlash(value: string) {
    value != "" && value[|value| - 1] == '\\'
  }

  /** A plain value is backslashes only, or backslashes, another character and a plain rest. */
  lemma PlainSplit(value: string, n: nat, rest: string)
    requires IsPlain(value) && n == Leading(value) && n < |value|
    ensures var c, tail := value[n], value[n + 1..];
      && c != '\\' && c != '"' && !IsBlank(c) && IsPlain(tail) && value == Slashes(n) + [c] + tail
      && value + rest == Slashes(n) + [c] + (tail + rest) && (EndsInSlash(value) <==> EndsInSlash(tail))
  {
    assert value == value[..n] + [value[n]] + value[n + 1..];
  }

  lemma {:induction false} PlainParses(value: string, rest: string, text: string)
    requires IsPlain(value) && Ends(rest) && (EndsInSlash(value) ==> rest == "") && text == value + rest
    ensures Parses(text, false, value, rest)
    decreases |value|
  {
    var n := Leading(value);
    if value == "" {
      assert text == rest;
      StopsAt(rest);
    } else if n == |value| {
      assert value == Slashes(n) && EndsInSlash(value);
      assert text == Slashes(n);
      StepEnd(n, false);
    } else {
      PlainSplit(value, n, rest);
      var c, tail := value[n], value[n + 1..];
      PlainParses(tail, rest, tail + rest);
      StepChar(text, n, c, tail + rest, false, tail, rest);
    }
  }

  lemma SwallowHere(n: nat, rest: string, text: string)
    requires n > 0 && text == Slashes(n) + (" " + rest)
    ensures Parses(text, false, Slashes(n) + (" " + ParseArg(rest, false).0), ParseArg(rest, false).1)
  {
    var more := ParseArg(rest, false).0;
    Appended(n, ' ', rest);
    StepChar(text, n, ' ', rest, false, more, ParseArg(rest, false).1);
    Appended(n, ' ', more);
  }

  lemma SwallowLater(value: string, n: nat, c: char, tail: string, body: string, text: string, more: string,
          left: string)
    requires c != '\\' && c != '"' && !IsBlank(c) && value == Slashes(n) + [c] + tail && text == Slashes(n) + [c] + body
    requires Parses(body, false, tail + (" " + more), left)
    ensures Parses(text, false, value + (" " + more), left)
  {
    StepChar(text, n, c, body, false, tail + (" " + more), left);
    assert Slashes(n) + [c] + (tail + (" " + more)) == value + (" " + more);
  }

  /** A plain value that ends in a backslash swallows the separator behind it. */
  lemma {:induction false} SlashSwallows(value: string, rest: string, text: string) returns (more: string, left: string)
    requires IsPlain(value) && EndsInSlash(value) && text == value + (" " + rest)
    ensures Parses(text, false, value + (" " + more), left)
    decreases |value|
  {
    var n := Leading(value);
    if n == |value| {
      more, left := ParseArg(rest, false).0, ParseArg(rest, false).1;
      assert value == Slashes(n);
      SwallowHere(n, rest, text);
    } else {
      PlainSplit(value, n, " " + rest);
      var tail := value[n + 1..];
      var body := tail + (" " + rest);
      more, left := SlashSwallows(tail, rest, body);
      SwallowLater(value, n, value[n], tail, body, text, more, left);
    }
  }

  // ---------- one argument ----------

  lemma EmptyParses(rest: string, text: string)
    requires Ends(rest) && text == "\"\"" + rest
    ensures Parses(text, false, "", rest)
  {
    var body := "\"" + rest;
    StopsAt(rest);
    assert body == Slashes(0) + "\"" + rest;
    StepQuote(body, 0, rest, true, "", rest);
    assert Slashes(0) + "" + "" == "";
    assert text == Slashes(0) + "\"" + body;
    StepQuote(text, 0, body, false, "", rest);
  }

  lemma WrappedParses(value: string, rest: string, body: string, text: string)
    requires Parses(body, true, value, rest) && text == "\"" + body
    ensures Parses(text, false, value, rest)
  {
    assert text == Slashes(0) + "\"" + body;
    StepQuote(text, 0, body, false, value, rest);
    assert Slashes(0) + "" + value == value;
  }

  lemma QuotedBranch(value: string, rest: string, text: string)
    requires Ends(rest) && text == "\"" + QuoteRest(value, 0) + rest
    ensures Parses(text, false, value, rest)
  {
    var body := QuoteRest(value, 0) + rest;
    assert Slashes(0) + value == value;
    QuotedParses(value, 0, rest, body, value);
    assert text == "\"" + body;
    WrappedParses(value, rest, body, text);
  }

  lemma QuoteParses(value: string, rest: string, text: string)
    requires Ends(rest) && (IsPlain(value) && EndsInSlash(value) ==> rest == "") && text == Quote(value) + rest
    ensures Parses(text, false, value, rest)
  {
    if value == "" {
      EmptyParses(rest, text);
    } else if !NeedsQuotes(value) {
      PlainParses(value, rest, text);
    } else {
      QuotedBranch(value, rest, text);
    }
  }

  lemma QuoteStarts(value: string, rest: string)
    ensures Quote(value) + rest != "" && !IsBlank((Quote(value) + rest)[0])
  {
    assert (Quote(value) + rest)[0] == Quote(value)[0];
  }

  // ---------- the whole line ----------

  /** The parser eats the separator behind argument `i`: it is not the last, not quoted, and ends in a backslash. */
  predicate Glued(args: seq<string>, i: int) {
    0 <= i < |args| - 1 && args[i] != "" && !NeedsQuotes(args[i]) && args[i][|args[i]| - 1] == '\\'
  }

  ghost predicate NoneGlued(args: seq<string>) {
    forall i :: 0 <= i < |args| ==> !Glued(args, i)
  }

  /** Parsing the line takes the first argument off, if its separator survives. */
  lemma FirstParses(args: seq<string>)
    requires args != [] && !Glued(args, 0)
    ensures Parse(Join(args)) == [args[0]] + Parse(Join(args[1..]))
  {
    var rest := if |args| == 1 then "" else " " + Join(args[1..]);
    assert Join(args) == Quote(args[0]) + rest;
    QuoteParses(args[0], rest, Join(args));
    QuoteStarts(args[0], rest);
    ParseStep(Join(args), rest, args[0]);
    if |args| > 1 { BlankSkipped(Join(args[1..])); }
  }

  lemma ParseStep(text: string, rest: string, arg: string)
    requires text != "" && !IsBlank(text[0]) && Parses(text, false, arg, rest)
    ensures Parse(text) == [arg] + Parse(rest)
  {
    assert SkipBlanks(text) == text;
  }

  lemma BlankSkipped(s: string)
    ensures Parse(" " + s) == Parse(s)
  {
    assert (" " + s)[1..] == s;
  }

  /** If the first separator is eaten, the first parsed argument is too long. */
  lemma FirstGlued(args: seq<string>)
    requires Glued(args, 0)
    ensures Parse(Join(args)) != [] && Parse(Join(args))[0] != args[0]
  {
    var rest, text := Join(args[1..]), Join(args);
    assert text == args[0] + (" " + rest);
    var more, left := SlashSwallows(args[0], rest, text);
    assert text[0] == args[0][0];
    ParseStep(text, left, args[0] + (" " + more));
  }

  lemma {:induction false} JoinParses(args: seq<string>)
    ensures Parse(Join(args)) == args <==> NoneGlued(args)
    decreases |args|
  {
    if args != [] {
      var tail := args[1..];
      assert args == [args[0]] + tail;
      if Glued(args, 0) {
        FirstGlued(args);
      } else {
        FirstParses(args);
        JoinParses(tail);
        GluedShift(args);
      }
    }
  }

  lemma GluedShift(args: seq<string>)
    requires args != [] && !Glued(args, 0)
    ensures NoneGlued(args) <==> NoneGlued(args[1..])
  {
    var tail := args[1..];
    forall i | 0 <= i < |tail| ensures Glued(tail, i) <==> Glued(args, i + 1) { }
    if NoneGlued(tail) {
      forall i | 0 <= i < |args| ensures !Glued(args, i) {
        if i > 0 { assert !Glued(tail, i - 1); }
      }
    }
  }

  // ---------- zero characters ----------

  ghost predicate NulFree(s: string) {
    forall i :: 0 <= i < |s| ==> s[i] != '\0'
  }

  ghost predicate AllNulFree(args: seq<string>) {
    forall i :: 0 <= i < |args| ==> NulFree(args[i])
  }

  lemma {:induction false} CutKeeps(s: string)
    ensures NulFree(Cut(s)) && (NulFree(s) ==> Cut(s) == s)
  {
    if s != "" && s[0] != '\0' {
      CutKeeps(s[1..]);
      assert s == [s[0]] + s[1..];
    }
  }

  lemma NulFreeJoin(a: string, b: string)
    requires NulFree(a) && NulFree(b)
    ensures NulFree(a + b)
  {
  }

  lemma {:induction false} ParseArgNulFree(s: string, quoted: bool)
    requires NulFree(s)
    ensures NulFree(ParseArg(s, quoted).0) && NulFree(ParseArg(s, quoted).1)
    decreases |s|
  {
    var n := Leading(s);
    if n < |s| && (quoted || !IsBlank(s[0])) {
      var next := if s[n] == '"' && n % 2 == 0 then !quoted else quoted;
      ParseArgNulFree(s[n + 1..], next);
      if s[n] == '"' {
        NulFreeJoin(Slashes(n / 2) + (if n % 2 == 1 then "\"" else ""), ParseArg(s[n + 1..], next).0);
      } else {
        NulFreeJoin(Slashes(n) + [s[n]], ParseArg(s[n + 1..], next).0);
      }
    }
  }

  lemma {:induction false} SkipNulFree(s: string)
    requires NulFree(s)
    ensures NulFree(SkipBlanks(s))
  {
    if s != "" && IsBlank(s[0]) { SkipNulFree(s[1..]); }
  }

  lemma {:induction false} ParseNulFree(s: string)
    requires NulFree(s)
    ensures AllNulFree(Parse(s))
    decreases |s|
  {
    var t := SkipBlanks(s);
    SkipNulFree(s);
    if t != "" {
      ParseArgNulFree(t, false);
      ParseNulFree(ParseArg(t, false).1);
    }
  }

  lemma {:induction false} QuoteRestNulFree(value: string, n: nat)
    requires NulFree(value)
    ensures NulFree(QuoteRest(value, n))
    decreases |value|
  {
    if value != "" { QuoteRestNulFree(value[1..], if value[0] == '\\' then n + 1 else 0); }
  }

  lemma {:induction false} JoinNulFree(args: seq<string>)
    requires AllNulFree(args)
    ensures NulFree(Join(args))
  {
    if args != [] {
      if NeedsQuotes(args[0]) { QuoteRestNulFree(args[0], 0); }
      if |args| > 1 { JoinNulFree(args[1..]); }
    }
  }

  /**
   The command line parses back to the arguments if and only if none of them contains a zero
   character and no argument but the last is unquoted and ends in a backslash.
   */
  lemma CommandLineRoundTrip(args: seq<string>)
    ensures Parse(Cut(Join(args))) == args <==> AllNulFree(args) && NoneGlued(args)
  {
    CutKeeps(Join(args));
    if AllNulFree(args) {
      JoinNulFree(args);
      JoinParses(args);
    } else {
      ParseNulFree(Cut(Join(args)));
    }
  }

  // ---------- the loops ----------

  /** quote_windows_argument. */
  method QuoteArgument(value: string) returns (out: string)
    ensures out == Quote(value)
  {
    if value == "" { return "\"\""; }
    if !NeedsQuotes(value) { return value; }
    out := "\"";
    var slashes := 0;
    for i := 0 to |value|
      invariant out + QuoteRest(value[i..], slashes) == "\"" + QuoteRest(value, 0)
    {
      QuoteLoop(out, value[i..], slashes);
      assert value[i..][1..] == value[i + 1..];
      if value[i] == '\\' {
        slashes := slashes + 1;
      } else if value[i] == '"' {
        out := out + Slashes(slashes * 2 + 1) + "\"";
        slashes := 0;
      } else {
        out := out + Slashes(slashes) + [value[i]];
        slashes := 0;
      }
    }
    out := out + (Slashes(slashes * 2) + "\"");
  }

  lemma QuoteLoop(out: string, value: string, n: nat)
    requires value != ""
    ensures value[0] == '\\' ==> out + QuoteRest(value, n) == out + QuoteRest(value[1..], n + 1)
    ensures value[0] == '"' ==> out + QuoteRest(value, n) == out + Slashes(n * 2 + 1) + "\"" + QuoteRest(value[1..], 0)
    ensures value[0] != '\\' && value[0] != '"' ==>
      out + QuoteRest(value, n) == out + Slashes(n) + [value[0]] + QuoteRest(value[1..], 0)
  {
  }

  /** The join loop of raz_rt_process_run_argv. */
  method JoinArguments(args: seq<string>) returns (line: string)
    ensures line == Join(args)
  {
    line := "";
    for i := 0 to |args|
      invariant line == Join(args[..i])
    {
      var quoted := QuoteArgument(args[i]);
      if i != 0 { line := line + " "; }
      line := JoinOne(args[..i], args[i], line, quoted);
      assert args[..i + 1] == args[..i] + [args[i]];
    }
    assert args[..|args|] == args;
  }

  function JoinOne(ghost done: seq<string>, ghost last: string, line: string, quoted: string): (r: string)
    requires quoted == Quote(last) && line == if done == [] then "" else Join(done) + " "
    ensures r == Join(done + [last])
  {
    JoinSnoc(done, last);
    line + quoted
  }

  lemma {:induction false} JoinSnoc(args: seq<string>, last: string)
    ensures Join(args + [last]) == if args == [] then Quote(last) else Join(args) + " " + Quote(last)
  {
    if args != [] {
      JoinSnoc(args[1..], last);
      assert (args + [last])[1..] == args[1..] + [last];
    }
  }

  method CountSlashes(s: string, from: nat) returns (n: nat)
    requires from <= |s|
    ensures n == Leading(s[from..]) && from + n <= |s|
  {
    n := 0;
    while from + n < |s| && s[from + n] == '\\'
      invariant from + n <= |s| && Leading(s[from..]) == n + Leading(s[from + n..])
    {
      assert s[from + n..][1..] == s[from + n + 1..];
      n := n + 1;
    }
  }

  /** What one round of the inner loop appends. */
  function Piece(t: string, n: nat): string
    requires n <= |t|
  {
    if n == |t| then Slashes(n)
    else if t[n] == '"' then Slashes(n / 2) + (if n % 2 == 1 then "\"" else "")
    else Slashes(n) + [t[n]]
  }

  function Mode(t: string, n: nat, quoted: bool): bool
    requires n <= |t|
  {
    if n < |t| && t[n] == '"' && n % 2 == 0 then !quoted else quoted
  }

  function Left(t: string, n: nat): string
    requires n <= |t|
  {
    if n == |t| then "" else t[n + 1..]
  }

  lemma ArgumentStep(t: string, n: nat, quoted: bool)
    requires t != "" && (quoted || !IsBlank(t[0])) && n == Leading(t)
    ensures ParseArg(t, quoted).0 == Piece(t, n) + ParseArg(Left(t, n), Mode(t, n, quoted)).0
    ensures ParseArg(t, quoted).1 == ParseArg(Left(t, n), Mode(t, n, quoted)).1
  {
    if n == |t| {
      assert ParseArg("", quoted) == ("", "");
      assert Slashes(n) + "" == Slashes(n);
    }
  }

  /** One round: from the cursor over a run of backslashes and the character behind it. */
  method ReadRun(s: string, at: nat, quoted: bool) returns (piece: string, cursor: nat, mode: bool)
    requires at < |s| && (quoted || !IsBlank(s[at]))
    ensures at < cursor <= |s|
    ensures Parses(s[at..], quoted, piece + ParseArg(s[cursor..], mode).0, ParseArg(s[cursor..], mode).1)
  {
    var n := CountSlashes(s, at);
    ghost var t := s[at..];
    ArgumentStep(t, n, quoted);
    cursor, mode := at + n, quoted;
    if cursor < |s| && s[cursor] == '"' {
      piece := Slashes(n / 2) + (if n % 2 == 1 then "\"" else "");
      if n % 2 == 0 { mode := !mode; }
      cursor := cursor + 1;
    } else if cursor < |s| {
      piece := Slashes(n) + [s[cursor]];
      cursor := cursor + 1;
    } else {
      piece := Slashes(n);
    }
    assert s[cursor..] == Left(t, n);
  }

  lemma AppendPiece(wide: string, piece: string, more: string, whole: string)
    requires wide + (piece + more) == whole
    ensures wide + piece + more == whole
  {
  }

  /** The inner loop of load_process_arguments: one argument, starting at the cursor. */
  method ReadArgument(s: string, start: nat) returns (wide: string, cursor: nat)
    requires start <= |s|
    ensures cursor <= |s| && Parses(s[start..], false, wide, s[cursor..])
    ensures start < |s| && !IsBlank(s[start]) ==> start < cursor
  {
    wide, cursor := "", start;
    var quoted := false;
    ghost var whole := ParseArg(s[start..], false);
    assert "" + whole.0 == whole.0;
    while cursor < |s| && (quoted || !IsBlank(s[cursor]))
      invariant start <= cursor <= |s| && (cursor == start ==> !quoted)
      invariant wide + ParseArg(s[cursor..], quoted).0 == whole.0 && ParseArg(s[cursor..], quoted).1 == whole.1
      decreases |s| - cursor
    {
      var piece, next, mode := ReadRun(s, cursor, quoted);
      AppendPiece(wide, piece, ParseArg(s[next..], mode).0, whole.0);
      wide, cursor, quoted := wide + piece, next, mode;
    }
    assert wide + "" == wide;
  }

  /** The Windows branch of load_process_arguments, without the conversion to UTF-8. */
  method ParseCommandLine(line: string) returns (args: seq<string>)
    ensures args == Parse(line)
  {
    args := [];
    var cursor := 0;
    assert line[0..] == line;
    while cursor < |line|
      invariant cursor <= |line| && args + Parse(line[cursor..]) == Parse(line)
      decreases |line| - cursor
    {
      var start := cursor;
      while cursor < |line| && IsBlank(line[cursor])
        invariant start <= cursor <= |line| && SkipBlanks(line[start..]) == SkipBlanks(line[cursor..])
      {
        assert line[cursor..][1..] == line[cursor + 1..];
        cursor := cursor + 1;
      }
      if cursor == |line| { break; }
      var wide, next := ReadArgument(line, cursor);
      assert Parse(line[start..]) == [wide] + Parse(line[next..]);
      args, cursor := args + [wide], next;
    }
  }
}
