/** The two command-line formats as rules: what quoting writes, and how every line is read. */
module ArgMeaning {
  import opened ArgCodec

  /** A blank, a tab or a quote in an argument makes quotes necessary. */
  ghost predicate Plain(value: string) {
    value != "" && ' ' !in value && '\t' !in value && '"' !in value
  }

  /** A plain argument is written as it is, any other between quotes. */
  lemma QuotedIff(value: string)
    ensures Plain(value) ==> Quote(value) == value
    ensures !Plain(value) ==> |Quote(value)| >= 2 && Quote(value)[0] == '"' && Quote(value)[|Quote(value)| - 1] == '"'
  {
    if !Plain(value) && value != "" {
      var i :| 0 <= i < |value| && (value[i] == ' ' || value[i] == '\t' || value[i] == '"');
      assert NeedsQuotes(value);
      RestEndsQuoted(value, 0);
    }
  }

  lemma {:induction false} RestEndsQuoted(value: string, n: nat)
    ensures QuoteRest(value, n) != "" && QuoteRest(value, n)[|QuoteRest(value, n)| - 1] == '"'
    decreases |value|
  {
    if value != "" {
      if value[0] == '\\' { RestEndsQuoted(value[1..], n + 1); } else { RestEndsQuoted(value[1..], 0); }
    }
  }

  /** What is not empty is backslashes alone, backslashes and a quote, or backslashes and another character. */
  lemma LineShape(text: string) returns (n: nat, body: string)
    requires text != ""
    ensures (n > 0 && text == Slashes(n)) || text == Slashes(n) + "\"" + body
      || exists c :: c != '\\' && c != '"' && text == Slashes(n) + [c] + body
  {
    n := Leading(text);
    assert text == text[..n] + text[n..];
    if n < |text| {
      body := text[n + 1..];
      assert text[n..] == [text[n]] + body;
      assert text == Slashes(n) + ([text[n]] + body) == Slashes(n) + [text[n]] + body;
    } else {
      body := "";
    }
  }

  /**
   Inside an argument: backslashes stand for themselves unless a quote follows them; then each two
   stand for one, and the quote is literal after an odd number and otherwise opens or closes a
   quoted stretch. Outside quotes a blank or tab ends the argument, but not right behind backslashes.
   */
  lemma ArgumentRules(n: nat, c: char, body: string, quoted: bool)
    ensures ParseArg("", quoted) == ("", "") && ParseArg(Slashes(n), quoted) == (Slashes(n), "")
    ensures c == ' ' || c == '\t' ==> ParseArg([c] + body, false) == ("", [c] + body)
    ensures var text := Slashes(n) + "\"" + body;
      n % 2 == 0 ==> ParseArg(text, quoted) == (Slashes(n / 2) + ParseArg(body, !quoted).0, ParseArg(body, !quoted).1)
    ensures var text := Slashes(n) + "\"" + body;
      n % 2 == 1 ==>
        ParseArg(text, quoted) == (Slashes(n / 2) + "\"" + ParseArg(body, quoted).0, ParseArg(body, quoted).1)
    ensures c != '\\' && c != '"' && (n > 0 || quoted || (c != ' ' && c != '\t')) ==>
      var rest := ParseArg(body, quoted);
      ParseArg(Slashes(n) + [c] + body, quoted) == (Slashes(n) + [c] + rest.0, rest.1)
  {
    StepEnd(n, quoted);
    var mode := if n % 2 == 1 then quoted else !quoted;
    StepQuote(Slashes(n) + "\"" + body, n, body, quoted, ParseArg(body, mode).0, ParseArg(body, mode).1);
    assert Slashes(n / 2) + "" == Slashes(n / 2);
    if c != '\\' && c != '"' && (n > 0 || quoted || (c != ' ' && c != '\t')) {
      StepChar(Slashes(n) + [c] + body, n, c, body, quoted, ParseArg(body, quoted).0, ParseArg(body, quoted).1);
    }
  }

  /** Between arguments: blanks and tabs are passed over, and anything else begins an argument. */
  lemma LineRules(c: char, body: string)
    ensures Parse("") == []
    ensures c == ' ' || c == '\t' ==> Parse([c] + body) == Parse(body)
    ensures c != ' ' && c != '\t' ==>
      var arg := ParseArg([c] + body, false);
      Parse([c] + body) == [arg.0] + Parse(arg.1)
  {
    assert ([c] + body)[1..] == body;
    if c != ' ' && c != '\t' {
      var arg := ParseArg([c] + body, false);
      ParseStep([c] + body, arg.1, arg.0);
    }
  }
}
