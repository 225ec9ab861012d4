/** The string operations of the two host languages that the model needs: trimming by a character class. */
module Text {
  type CharClass = char -> bool

  /** The Unicode White_Space property, which is what Rust's `str::trim` strips. */
  predicate IsWhitespace(c: char) {
    || '\U{9}' <= c <= '\U{D}'
    || c in {' ', '\U{85}', '\U{A0}', '\U{1680}', '\U{2028}', '\U{2029}', '\U{202F}', '\U{205F}', '\U{3000}'}
    || '\U{2000}' <= c <= '\U{200A}'
  }

  /** The WhiteSpace and LineTerminator classes of ECMAScript, which is what `String.prototype.trim` strips. */
  predicate IsScriptWhitespace(c: char) {
    c == '\U{FEFF}' || (IsWhitespace(c) && c != '\U{85}')
  }

  function TrimStart(s: string, p: CharClass): (r: string)
    ensures r == [] || !p(r[0])
  {
    if s != [] && p(s[0]) then TrimStart(s[1..], p) else s
  }

  function TrimEnd(s: string, p: CharClass): (r: string)
    ensures r <= s
    ensures r == [] || !p(r[|r| - 1])
  {
    if s != [] && p(s[|s| - 1]) then TrimEnd(s[..|s| - 1], p) else s
  }

  function TrimBy(s: string, p: CharClass): string {
    TrimEnd(TrimStart(s, p), p)
  }

  function Trim(s: string): string {
    TrimBy(s, IsWhitespace)
  }

  predicate IsBlank(s: string) {
    Trim(s) == []
  }

  ghost predicate All(s: string, p: CharClass) {
    forall i :: 0 <= i < |s| ==> p(s[i])
  }

  /** What is cut off in front consists of characters of the class. */
  lemma {:induction false} TrimStartSplits(s: string, p: CharClass) returns (front: string)
    ensures s == front + TrimStart(s, p) && All(front, p)
  {
    if s != [] && p(s[0]) {
      var rest := TrimStartSplits(s[1..], p);
      front := [s[0]] + rest;
    } else {
      front := [];
    }
  }

  lemma {:induction false} TrimEndSplits(s: string, p: CharClass) returns (back: string)
    ensures s == TrimEnd(s, p) + back && All(back, p)
  {
    if s != [] && p(s[|s| - 1]) {
      var rest := TrimEndSplits(s[..|s| - 1], p);
      back := rest + [s[|s| - 1]];
    } else {
      back := [];
    }
  }

  /** Trimming keeps one contiguous piece, drops only characters of the class, and leaves none at either end. */
  lemma TrimBySplits(s: string, p: CharClass) returns (front: string, back: string)
    ensures s == front + TrimBy(s, p) + back
    ensures All(front, p) && All(back, p)
    ensures TrimBy(s, p) != [] ==> !p(TrimBy(s, p)[0]) && !p(TrimBy(s, p)[|TrimBy(s, p)| - 1])
  {
    front := TrimStartSplits(s, p);
    back := TrimEndSplits(TrimStart(s, p), p);
  }

  /** A string whose two ends are outside the class is not changed by trimming. */
  lemma TrimByIdentity(s: string, p: CharClass)
    requires s == [] || (!p(s[0]) && !p(s[|s| - 1]))
    ensures TrimBy(s, p) == s
  {}

  /** A string is blank exactly when it has no character outside the class. */
  lemma {:induction false} TrimByEmpty(s: string, p: CharClass)
    ensures TrimBy(s, p) == [] <==> All(s, p)
  {
    var front, back := TrimBySplits(s, p);
    if TrimBy(s, p) == [] {
      assert s == front + back;
    } else {
      var t := TrimBy(s, p);
      assert s[|front|] == t[0];
    }
  }

  /** Trimming is the only way to cut characters of the class off both ends until neither end has one. */
  lemma {:induction false} TrimByUnique(front: string, body: string, back: string, p: CharClass)
    requires All(front, p) && All(back, p)
    requires body != [] && !p(body[0]) && !p(body[|body| - 1])
    ensures TrimBy(front + body + back, p) == body
  {
    var rest := body + back;
    assert front + body + back == front + rest;
    SkipFront(front, rest, p);
    SkipBack(body, back, p);
  }

  lemma {:induction false} SkipFront(front: string, rest: string, p: CharClass)
    requires All(front, p) && rest != [] && !p(rest[0])
    ensures TrimStart(front + rest, p) == rest
  {
    if front == [] {
      assert front + rest == rest;
    } else {
      assert (front + rest)[1..] == front[1..] + rest;
      SkipFront(front[1..], rest, p);
    }
  }

  lemma {:induction false} SkipBack(body: string, back: string, p: CharClass)
    requires All(back, p) && body != [] && !p(body[|body| - 1])
    ensures TrimEnd(body + back, p) == body
  {
    if back == [] {
      assert body + back == body;
    } else {
      var shorter := back[..|back| - 1];
      assert (body + back)[..|body + back| - 1] == body + shorter;
      SkipBack(body, shorter, p);
    }
  }
}
