/** Text as an AppleScript string literal, and why the script around it is read as it was meant. */
module AppleScript {
  import opened Wrappers

  const BACKSLASH: char := '\\'
  const QUOTE: char := '"'

  /** Replaces every occurrence of a character. */
  function Replace(s: string, c: char, by_: string): string {
    if s == "" then ""
    else Replace(s[..|s| - 1], c, by_) + if s[|s| - 1] == c then by_ else [s[|s| - 1]]
  }

  function Literal(text: string): string {
    [QUOTE] + Replace(Replace(text, BACKSLASH, [BACKSLASH, BACKSLASH]), QUOTE, [BACKSLASH, QUOTE]) + [QUOTE]
  }

  function TypeTextScript(text: string): string {
    "tell application \"System Events\" to keystroke " + Literal(text)
  }

  function Joined(parts: seq<string>): string {
    if parts == [] then "" else if |parts| == 1 then parts[0] else Joined(parts[..|parts| - 1]) + ", " + parts[|parts| - 1]
  }

  function ShortcutScript(text: string, usingClause: seq<string>): string {
    var keyExpr := "keystroke " + Literal(text);
    if usingClause == [] then "tell application \"System Events\" to " + keyExpr
    else "tell application \"System Events\" to " + keyExpr + " using {" + Joined(usingClause) + "}"
  }

  // ----- One pass -----

  function EscapeChar(c: char): string {
    if c == BACKSLASH || c == QUOTE then [BACKSLASH, c] else [c]
  }

  function Escape(text: string): string {
    if text == "" then "" else Escape(text[..|text| - 1]) + EscapeChar(text[|text| - 1])
  }

  lemma ReplaceLast(s: string, last: char, c: char, by_: string)
    ensures Replace(s + [last], c, by_) == Replace(s, c, by_) + if last == c then by_ else [last]
  {
    assert (s + [last])[..|s|] == s;
  }

  lemma {:induction false} ReplaceJoins(a: string, b: string, c: char, by_: string)
    ensures Replace(a + b, c, by_) == Replace(a, c, by_) + Replace(b, c, by_)
  {
    if b == "" {
      assert a + b == a;
    } else {
      var front, last := b[..|b| - 1], b[|b| - 1];
      ReplaceJoins(a, front, c, by_);
      assert a + b == (a + front) + [last];
      ReplaceLast(a + front, last, c, by_);
      ReplaceLast(front, last, c, by_);
      assert b == front + [last];
    }
  }

  lemma ReplaceOne(x: char, c: char, by_: string)
    ensures Replace([x], c, by_) == if x == c then by_ else [x]
  {
    assert [x][..0] == "" && Replace("", c, by_) == "";
  }

  lemma ReplacePair(x: char, y: char, c: char, by_: string)
    requires x != c && y != c
    ensures Replace([x, y], c, by_) == [x, y]
  {
    ReplaceJoins([x], [y], c, by_);
    ReplaceOne(x, c, by_);
    ReplaceOne(y, c, by_);
  }

  /** The two replacements, one after the other, escape every backslash and every quote exactly once. */
  lemma {:induction false} TwoReplacementsAreOneEscape(text: string)
    ensures Replace(Replace(text, BACKSLASH, [BACKSLASH, BACKSLASH]), QUOTE, [BACKSLASH, QUOTE]) == Escape(text)
  {
    if text != "" {
      var front, c := text[..|text| - 1], text[|text| - 1];
      TwoReplacementsAreOneEscape(front);
      var once := if c == BACKSLASH then [BACKSLASH, BACKSLASH] else [c];
      ReplaceJoins(Replace(front, BACKSLASH, [BACKSLASH, BACKSLASH]), once, QUOTE, [BACKSLASH, QUOTE]);
      if c == BACKSLASH {
        ReplacePair(BACKSLASH, BACKSLASH, QUOTE, [BACKSLASH, QUOTE]);
      } else {
        ReplaceOne(c, QUOTE, [BACKSLASH, QUOTE]);
      }
    }
  }

  /** The other order would not do: it escapes the backslashes that the first replacement has put in. */
  lemma {:induction false} OtherOrderWorksIffNoQuote(text: string)
    ensures Replace(Replace(text, QUOTE, [BACKSLASH, QUOTE]), BACKSLASH, [BACKSLASH, BACKSLASH]) == Escape(text)
            <==> QUOTE !in text
  {
    OtherOrderLength(text);
    if QUOTE !in text {
      OtherOrderWithoutQuote(text);
    }
  }

  lemma {:induction false} OtherOrderLength(text: string)
    ensures |Replace(Replace(text, QUOTE, [BACKSLASH, QUOTE]), BACKSLASH, [BACKSLASH, BACKSLASH])| ==
            |Escape(text)| + multiset(text)[QUOTE]
  {
    if text != "" {
      var front, c := text[..|text| - 1], text[|text| - 1];
      OtherOrderLength(front);
      assert text == front + [c];
      var once := if c == QUOTE then [BACKSLASH, QUOTE] else [c];
      ReplaceJoins(Replace(front, QUOTE, [BACKSLASH, QUOTE]), once, BACKSLASH, [BACKSLASH, BACKSLASH]);
      OtherOrderChar(c);
    }
  }

  lemma OtherOrderChar(c: char)
    ensures Replace(if c == QUOTE then [BACKSLASH, QUOTE] else [c], BACKSLASH, [BACKSLASH, BACKSLASH]) ==
            if c == QUOTE then [BACKSLASH, BACKSLASH, QUOTE] else EscapeChar(c)
  {
    ReplaceOne(c, BACKSLASH, [BACKSLASH, BACKSLASH]);
    ReplaceOne(BACKSLASH, BACKSLASH, [BACKSLASH, BACKSLASH]);
    ReplaceOne(QUOTE, BACKSLASH, [BACKSLASH, BACKSLASH]);
    ReplaceJoins([BACKSLASH], [QUOTE], BACKSLASH, [BACKSLASH, BACKSLASH]);
    assert [BACKSLASH] + [QUOTE] == [BACKSLASH, QUOTE];
  }

  lemma {:induction false} OtherOrderWithoutQuote(text: string)
    requires QUOTE !in text
    ensures Replace(Replace(text, QUOTE, [BACKSLASH, QUOTE]), BACKSLASH, [BACKSLASH, BACKSLASH]) == Escape(text)
  {
    if text != "" {
      var front, c := text[..|text| - 1], text[|text| - 1];
      assert c in text && forall x :: x in front ==> x in text;
      OtherOrderWithoutQuote(front);
      ReplaceJoins(Replace(front, QUOTE, [BACKSLASH, QUOTE]), [c], BACKSLASH, [BACKSLASH, BACKSLASH]);
      OtherOrderChar(c);
    }
  }

  // ----- Reading a literal -----

  /** The character that a backslash and c stand for; other escapes are not part of the language. */
  function Unescaped(c: char): Option<char> {
    if c == BACKSLASH || c == QUOTE then Some(c)
    else if c == 'n' then Some('\n')
    else if c == 'r' then Some('\r')
    else if c == 't' then Some('\t')
    else None
  }

  datatype Reading = Reading(text: string, rest: string)

  /** Reads on inside a literal up to its closing quote. */
  function ReadBody(s: string): Option<Reading> {
    if s == "" then None
    else if s[0] == QUOTE then Some(Reading("", s[1..]))
    else if s[0] == BACKSLASH then
      if |s| < 2 || Unescaped(s[1]).None? then None
      else Prepend(Unescaped(s[1]).value, ReadBody(s[2..]))
    else Prepend(s[0], ReadBody(s[1..]))
  }

  function Prepend(c: char, r: Option<Reading>): Option<Reading> {
    match r
    case None => None
    case Some(reading) => Some(Reading([c] + reading.text, reading.rest))
  }

  function ReadLiteral(s: string): Option<Reading> {
    if s != "" && s[0] == QUOTE then ReadBody(s[1..]) else None
  }

  lemma EscapeLast(front: string, c: char)
    ensures Escape(front + [c]) == Escape(front) + EscapeChar(c)
  {
    assert (front + [c])[..|front|] == front;
  }

  lemma NothingEscaped()
    ensures Escape("") == ""
  {}

  lemma {:induction false} EscapeFromFront(text: string)
    requires text != ""
    ensures Escape(text) == EscapeChar(text[0]) + Escape(text[1..])
  {
    hide Escape, EscapeChar;
    var front, c := text[..|text| - 1], text[|text| - 1];
    assert text == front + [c];
    EscapeLast(front, c);
    if front == "" {
      NothingEscaped();
      assert text[1..] == "";
    } else {
      EscapeFromFront(front);
      EscapeLast(front[1..], c);
      assert text[1..] == front[1..] + [c];
    }
  }

  lemma {:induction false} BodyReadsBack(text: string, rest: string)
    ensures ReadBody(Escape(text) + [QUOTE] + rest) == Some(Reading(text, rest))
  {
    var s := Escape(text) + [QUOTE] + rest;
    if text == "" {
      assert s[1..] == rest;
    } else {
      var tail := Escape(text[1..]) + [QUOTE] + rest;
      EscapeFromFront(text);
      BodyReadsBack(text[1..], rest);
      assert s == EscapeChar(text[0]) + tail;
      assert s[|EscapeChar(text[0])|..] == tail;
      assert [text[0]] + text[1..] == text;
    }
  }

  /** Reading a literal gives exactly the text it was made from, and leaves what follows it untouched. */
  lemma LiteralReadsBack(text: string, rest: string)
    ensures ReadLiteral(Literal(text) + rest) == Some(Reading(text, rest))
  {
    hide ReadBody, Replace, Escape;
    TwoReplacementsAreOneEscape(text);
    BodyReadsBack(text, rest);
    var body := Escape(text) + [QUOTE] + rest;
    assert Literal(text) + rest == [QUOTE] + body;
    AfterPrefix([QUOTE], body);
  }

  /** The scripts that type text or press a shortcut hold that text, followed by exactly the modifiers. */
  lemma ScriptsHoldTheText(text: string, usingClause: seq<string>)
    ensures var keystroke := "tell application \"System Events\" to keystroke ";
            && keystroke <= TypeTextScript(text)
            && ReadLiteral(TypeTextScript(text)[|keystroke|..]) == Some(Reading(text, ""))
            && keystroke <= ShortcutScript(text, usingClause)
            && ReadLiteral(ShortcutScript(text, usingClause)[|keystroke|..]) ==
               Some(Reading(text, if usingClause == [] then "" else " using {" + Joined(usingClause) + "}"))
  {
    hide Literal, ReadLiteral, Joined;
    var tell, key := "tell application \"System Events\" to ", "keystroke ";
    var keystroke := "tell application \"System Events\" to keystroke ";
    assert tell + key == keystroke;
    var rest := if usingClause == [] then "" else " using {" + Joined(usingClause) + "}";
    LiteralReadsBack(text, "");
    LiteralReadsBack(text, rest);
    assert Literal(text) + "" == Literal(text);
    AfterPrefix(keystroke, Literal(text));
    AfterPrefix(keystroke, Literal(text) + rest);
    ShortcutRegroups(tell, key, Literal(text), Joined(usingClause));
  }

  lemma AfterPrefix(prefix: string, s: string)
    ensures prefix <= prefix + s && (prefix + s)[|prefix|..] == s
  {}

  lemma ShortcutRegroups(tell: string, key: string, literal: string, clause: string)
    ensures tell + (key + literal) == (tell + key) + literal == (tell + key) + (literal + "")
    ensures tell + (key + literal) + " using {" + clause + "}" == (tell + key) + (literal + (" using {" + clause + "}"))
  {}

  // ----- Escaped quotes -----

  /** The number of backslashes at the end of s. */
  function Run(s: string): nat {
    if s != "" && s[|s| - 1] == BACKSLASH then 1 + Run(s[..|s| - 1]) else 0
  }

  /** A character is escaped if an odd number of backslashes stands directly before it. */
  predicate IsEscaped(s: string, i: nat)
    requires i <= |s|
  {
    Run(s[..i]) % 2 == 1
  }

  lemma {:induction false} RunBehindQuote(s: string)
    ensures Run([QUOTE] + s) == Run(s)
  {
    var t := [QUOTE] + s;
    if s != "" {
      assert t[..|t| - 1] == [QUOTE] + s[..|s| - 1];
      RunBehindQuote(s[..|s| - 1]);
    }
  }

  lemma {:induction false} EscapeEscapesQuotes(text: string)
    ensures Run(Escape(text)) % 2 == 0
    ensures forall i :: 0 <= i < |Escape(text)| && Escape(text)[i] == QUOTE ==> IsEscaped(Escape(text), i)
  {
    hide Run, EscapeChar;
    if text == "" {
      assert Run("") == 0 by { NoRun(); }
    } else {
      var front, c := text[..|text| - 1], text[|text| - 1];
      EscapeEscapesQuotes(front);
      var e, more := Escape(front), Escape(text);
      RunGrows(e, c);
      forall i | 0 <= i < |more| && more[i] == QUOTE ensures IsEscaped(more, i) {
        if i < |e| {
          assert more[..i] == e[..i];
        } else {
          NewQuoteIsEscaped(e, c, i);
        }
      }
    }
  }

  lemma NoRun()
    ensures Run("") == 0
  {}

  lemma NewQuoteIsEscaped(e: string, c: char, i: nat)
    requires Run(e) % 2 == 0 && |e| <= i < |e + EscapeChar(c)| && (e + EscapeChar(c))[i] == QUOTE
    ensures IsEscaped(e + EscapeChar(c), i)
  {
    assert i == |e| + 1 && c == QUOTE;
    assert (e + EscapeChar(c))[..i] == e + [BACKSLASH];
    assert (e + [BACKSLASH])[..|e|] == e;
  }

  lemma RunGrows(e: string, c: char)
    requires Run(e) % 2 == 0
    ensures Run(e + EscapeChar(c)) % 2 == 0
  {
    if c == BACKSLASH {
      assert (e + [c, c])[..|e| + 1] == e + [c];
      assert (e + [c])[..|e|] == e;
    }
  }

  /** Inside a literal every quote is escaped, and the quote at its end is not: it is the one that closes it. */
  lemma ClosingQuoteIsFirstUnescaped(text: string)
    ensures var literal := Literal(text);
            var last := |literal| - 1;
            && last > 0 && literal[last] == QUOTE && !IsEscaped(literal, last)
            && forall i :: 0 < i < last && literal[i] == QUOTE ==> IsEscaped(literal, i)
  {
    hide Run, Replace, Escape;
    TwoReplacementsAreOneEscape(text);
    EscapeEscapesQuotes(text);
    var body, literal := Escape(text), Literal(text);
    var last := |literal| - 1;
    assert literal[..last] == [QUOTE] + body;
    RunBehindQuote(body);
    forall i | 0 < i < last && literal[i] == QUOTE ensures IsEscaped(literal, i) {
      assert body[i - 1] == QUOTE;
      assert literal[..i] == [QUOTE] + body[..i - 1];
      RunBehindQuote(body[..i - 1]);
    }
  }
}
