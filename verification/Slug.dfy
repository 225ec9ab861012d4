/** Three separately written functions that turn a name into a slug, and why they are one and the same. */
module Slug {
  import opened Text

  predicate IsLower(c: char) { 'a' <= c <= 'z' }
  predicate IsUpper(c: char) { 'A' <= c <= 'Z' }
  predicate IsDigit(c: char) { '0' <= c <= '9' }
  predicate IsAlphanumeric(c: char) { IsLower(c) || IsUpper(c) || IsDigit(c) }

  function ToLower(c: char): char {
    if IsUpper(c) then (c as int + 32) as char else c
  }

  predicate IsHyphen(c: char) { c == '-' }

  // ----- What a slug is -----

  /** The maximal runs of ASCII letters and digits of a text, in lower case. */
  function Words(s: string): seq<string> {
    if s == "" then []
    else
      var front, c := s[..|s| - 1], s[|s| - 1];
      if !IsAlphanumeric(c) then Words(front)
      else if front == "" || !IsAlphanumeric(front[|front| - 1]) || Words(front) == [] then Words(front) + [[ToLower(c)]]
      else
        var words := Words(front);
        words[..|words| - 1] + [words[|words| - 1] + [ToLower(c)]]
  }

  function Join(words: seq<string>): string {
    if words == [] then ""
    else if |words| == 1 then words[0]
    else Join(words[..|words| - 1]) + "-" + words[|words| - 1]
  }

  function Slug(s: string): string {
    Join(Words(s))
  }

  /** Lower-case letters, digits and single inner hyphens. */
  ghost predicate IsSlug(s: string) {
    && SlugCharacters(s)
    && (s != "" ==> s[0] != '-' && s[|s| - 1] != '-')
  }

  ghost predicate SlugCharacters(s: string) {
    && (forall i :: 0 <= i < |s| ==> IsLower(s[i]) || IsDigit(s[i]) || s[i] == '-')
    && (forall i :: 0 < i < |s| ==> s[i - 1] != '-' || s[i] != '-')
  }

  // ----- The loops -----

  predicate EndsWithHyphen(s: string) {
    s != "" && s[|s| - 1] == '-'
  }

  /** What the loops build up before they strip hyphens at both ends. */
  function Collapse(s: string): string {
    if s == "" then ""
    else
      var front, c := Collapse(s[..|s| - 1]), s[|s| - 1];
      if IsAlphanumeric(c) then front + [ToLower(c)]
      else if EndsWithHyphen(front) then front
      else front + "-"
  }

  lemma LoweredAlphanumeric(c: char)
    ensures IsAlphanumeric(ToLower(c)) <==> IsAlphanumeric(c)
    ensures IsAlphanumeric(c) ==> (IsLower(ToLower(c)) || IsDigit(ToLower(c))) && ToLower(c) != '-'
  {}

  /** The slug of the settings file: it trims first, and remembers in a flag whether the last character was a hyphen. */
  method SlugifySetting(value: string) returns (slug: string)
    ensures slug == Slug(value) && IsSlug(slug)
  {
    var trimmed := Trim(value);
    slug := "";
    var previousHyphen := false;
    for i := 0 to |trimmed|
      invariant slug == Collapse(trimmed[..i])
      invariant previousHyphen <==> EndsWithHyphen(slug)
    {
      assert trimmed[..i + 1][..i] == trimmed[..i];
      var lowered := ToLower(trimmed[i]);
      LoweredAlphanumeric(trimmed[i]);
      if IsAlphanumeric(lowered) {
        slug := slug + [lowered];
        previousHyphen := false;
      } else if !previousHyphen {
        slug := slug + "-";
        previousHyphen := true;
      }
    }
    assert trimmed[..|trimmed|] == trimmed;
    CollapseTrims(trimmed);
    slug := TrimBy(slug, IsHyphen);
    TrimKeepsWords(value);
    SlugIsSlug(value);
  }

  /** The loop of the other two: no trimming, and it looks at the end of what it has built. */
  method Hyphenate(input: string) returns (trimmed: string)
    ensures trimmed == Slug(input)
  {
    var result := "";
    for i := 0 to |input|
      invariant result == Collapse(input[..i])
    {
      assert input[..i + 1][..i] == input[..i];
      LoweredAlphanumeric(input[i]);
      if IsAlphanumeric(input[i]) {
        result := result + [ToLower(input[i])];
      } else if !EndsWithHyphen(result) {
        result := result + "-";
      }
    }
    assert input[..|input|] == input;
    CollapseTrims(input);
    trimmed := TrimBy(result, IsHyphen);
  }

  method SanitizeToken(value: string) returns (token: string)
    ensures token == if Slug(value) == "" then "extension" else Slug(value)
    ensures IsSlug(token) && token != ""
  {
    token := Hyphenate(value);
    SlugIsSlug(value);
    if token == "" {
      token := "extension";
    }
  }

  method SlugifyDevice(value: string) returns (slug: string)
    ensures slug == if Slug(value) == "" then "device" else Slug(value)
    ensures IsSlug(slug) && slug != ""
  {
    slug := Hyphenate(value);
    SlugIsSlug(value);
    if slug == "" {
      slug := "device";
    }
  }

  // ----- The loops join the words -----

  ghost predicate WordsAreSound(words: seq<string>) {
    forall k :: 0 <= k < |words| ==> words[k] != "" && forall i :: 0 <= i < |words[k]| ==> words[k][i] != '-'
  }

  /** If a text ends in a letter or digit, it has a word. */
  lemma {:induction false} WordsSound(s: string)
    ensures WordsAreSound(Words(s))
    ensures s != "" && IsAlphanumeric(s[|s| - 1]) ==> Words(s) != []
  {
    if s != "" {
      WordsSound(s[..|s| - 1]);
      LoweredAlphanumeric(s[|s| - 1]);
    }
  }

  /** Letting the last word grow lets the joined text grow. */
  lemma JoinGrows(words: seq<string>, c: char)
    requires words != []
    ensures Join(words[..|words| - 1] + [words[|words| - 1] + [c]]) == Join(words) + [c]
  {
    var grown := words[..|words| - 1] + [words[|words| - 1] + [c]];
    assert grown[..|grown| - 1] == words[..|words| - 1];
  }

  lemma JoinAppends(words: seq<string>, word: string)
    requires words != []
    ensures Join(words + [word]) == Join(words) + "-" + word
  {
    assert (words + [word])[..|words|] == words;
  }

  function Lead(s: string): string {
    if s != "" && !IsAlphanumeric(s[0]) then "-" else ""
  }

  function Tail(s: string): string {
    if s != "" && !IsAlphanumeric(s[|s| - 1]) && Words(s) != [] then "-" else ""
  }

  /** The joined words end in a letter or digit if there are any. */
  lemma {:induction false} JoinEnds(words: seq<string>)
    requires WordsAreSound(words) && words != []
    ensures Join(words) != "" && Join(words)[0] != '-' && Join(words)[|Join(words)| - 1] != '-'
  {
    if |words| > 1 {
      var front := words[..|words| - 1];
      JoinEnds(front);
      assert words[|words| - 1] != "";
      assert Join(words)[0] == Join(front)[0];
    }
  }

  /** What the loops build up: the joined words, with at most one hyphen at either end. */
  lemma {:induction false} CollapseIsJoined(s: string)
    ensures Collapse(s) == Lead(s) + Slug(s) + Tail(s)
  {
    hide IsAlphanumeric, ToLower, Words, Slug, Lead, Tail, Collapse, Join;
    if |s| <= 1 {
      CollapseShort(s);
    } else {
      var front, c := s[..|s| - 1], s[|s| - 1];
      CollapseIsJoined(front);
      WordsSound(front);
      assert front + [c] == s;
      if IsAlphanumeric(c) {
        CollapseLetter(front, c);
      } else {
        CollapseOther(front, c);
      }
    }
  }

  lemma CollapseShort(s: string)
    requires |s| <= 1
    ensures Collapse(s) == Lead(s) + Slug(s) + Tail(s)
  {
    hide IsAlphanumeric, ToLower, Words, Collapse, Join;
    NothingCollapsed();
    if |s| == 1 {
      var c := s[0];
      assert "" + [c] == s;
      CollapseOne("", c);
      OneMoreWords("", c);
      JoinFew([ToLower(c)]);
      if IsAlphanumeric(c) {
        assert [] + [[ToLower(c)]] == [[ToLower(c)]];
      }
    } else {
      JoinFew("");
    }
  }

  lemma NothingCollapsed()
    ensures Words("") == [] && Collapse("") == ""
  {}

  /** One more character, case by case. */
  lemma OneMoreWords(front: string, c: char)
    ensures var words := Words(front);
            Words(front + [c]) ==
              if !IsAlphanumeric(c) then words
              else if front == "" || !IsAlphanumeric(front[|front| - 1]) || words == [] then words + [[ToLower(c)]]
              else words[..|words| - 1] + [words[|words| - 1] + [ToLower(c)]]
  {
    hide IsAlphanumeric, ToLower;
    assert (front + [c])[..|front|] == front;
  }

  lemma OneMoreEnds(front: string, c: char)
    requires front != ""
    ensures Lead(front + [c]) == Lead(front)
    ensures Tail(front + [c]) == if !IsAlphanumeric(c) && Words(front) != [] then "-" else ""
  {
    hide IsAlphanumeric, ToLower, Words;
    OneMoreWords(front, c);
  }

  lemma JoinFew(word: string)
    ensures Join([]) == "" && Join([word]) == word
  {}

  lemma Regroup(a: string, b: string, c: string, d: string)
    ensures (a + b + c) + d == a + (b + c + d) + ""
  {}

  lemma LetterContinues(front: string, c: char)
    requires front != "" && IsAlphanumeric(c) && IsAlphanumeric(front[|front| - 1]) && Words(front) != []
    ensures Slug(front + [c]) == Slug(front) + Tail(front) + [ToLower(c)]
  {
    hide IsAlphanumeric, ToLower, Words, Join;
    OneMoreWords(front, c);
    JoinGrows(Words(front), ToLower(c));
    assert Tail(front) == "";
    assert Slug(front) + "" == Slug(front);
  }

  lemma LetterStarts(front: string, c: char)
    requires front != "" && IsAlphanumeric(c) && !IsAlphanumeric(front[|front| - 1])
    ensures Slug(front + [c]) == Slug(front) + Tail(front) + [ToLower(c)]
  {
    hide IsAlphanumeric, ToLower, Words, Join;
    OneMoreWords(front, c);
    if Words(front) != [] {
      JoinAppends(Words(front), [ToLower(c)]);
      assert Tail(front) == "-";
    } else {
      assert [] + [[ToLower(c)]] == [[ToLower(c)]];
      JoinFew([ToLower(c)]);
      assert "" + "" + [ToLower(c)] == [ToLower(c)];
    }
  }

  /** The slug gains the letter, after a hyphen if it starts another word. */
  lemma CollapseLetter(front: string, c: char)
    requires front != "" && IsAlphanumeric(c) && Collapse(front) == Lead(front) + Slug(front) + Tail(front)
    requires IsAlphanumeric(front[|front| - 1]) ==> Words(front) != []
    ensures Collapse(front + [c]) == Lead(front + [c]) + Slug(front + [c]) + Tail(front + [c])
  {
    hide IsAlphanumeric, ToLower, Words, Slug, Lead, Tail, Collapse, Join;
    if IsAlphanumeric(front[|front| - 1]) {
      LetterContinues(front, c);
    } else {
      LetterStarts(front, c);
    }
    OneMoreEnds(front, c);
    CollapseOne(front, c);
    Regroup(Lead(front), Slug(front), Tail(front), [ToLower(c)]);
  }

  lemma CollapseOne(front: string, c: char)
    ensures Collapse(front + [c]) ==
            if IsAlphanumeric(c) then Collapse(front) + [ToLower(c)]
            else if EndsWithHyphen(Collapse(front)) then Collapse(front)
            else Collapse(front) + "-"
  {
    assert (front + [c])[..|front|] == front;
  }

  /** A text without words has no letters or digits. */
  lemma {:induction false} OnlyHyphens(s: string)
    requires Words(s) == []
    ensures forall i :: 0 <= i < |s| ==> !IsAlphanumeric(s[i])
  {
    hide IsAlphanumeric, ToLower;
    if s != "" {
      OnlyHyphens(s[..|s| - 1]);
    }
  }

  lemma CollapseOther(front: string, c: char)
    requires front != "" && !IsAlphanumeric(c) && Collapse(front) == Lead(front) + Slug(front) + Tail(front)
    requires WordsAreSound(Words(front)) && (IsAlphanumeric(front[|front| - 1]) ==> Words(front) != [])
    ensures Collapse(front + [c]) == Lead(front + [c]) + Slug(front + [c]) + Tail(front + [c])
  {
    hide IsAlphanumeric, ToLower, Words, Collapse, Join, WordsAreSound;
    CollapseOne(front, c);
    OneMoreEnds(front, c);
    OneMoreWords(front, c);
    if Words(front) == [] {
      OnlyHyphens(front);
      JoinFew("");
    } else {
      JoinEnds(Words(front));
      EndsInHyphen(Lead(front), Slug(front), Tail(front));
    }
  }

  lemma EndsInHyphen(lead: string, slug: string, tail: string)
    requires slug != "" && slug[|slug| - 1] != '-' && tail in {"", "-"}
    ensures EndsWithHyphen(lead + slug + tail) <==> tail == "-"
    ensures tail == "" ==> lead + slug + tail + "-" == lead + slug + "-"
  {}

  lemma StripTail(body: string, tail: string)
    requires body != "" && body[|body| - 1] != '-' && tail in {"", "-"}
    ensures TrimEnd(body + tail, IsHyphen) == body
  {
    if tail == "-" {
      assert (body + tail)[..|body|] == body;
    } else {
      assert body + tail == body;
    }
  }

  lemma StripLead(lead: string, rest: string)
    requires rest != "" && rest[0] != '-' && lead in {"", "-"}
    ensures TrimStart(lead + rest, IsHyphen) == rest
  {
    if lead == "-" {
      assert (lead + rest)[1..] == rest;
    } else {
      assert lead + rest == rest;
    }
  }

  lemma StripNothing(lead: string)
    requires lead in {"", "-"}
    ensures TrimBy(lead, IsHyphen) == ""
  {
    if lead == "-" {
      assert lead[1..] == "";
    }
  }

  /** Stripping the hyphens leaves the joined words. */
  lemma CollapseTrims(s: string)
    ensures TrimBy(Collapse(s), IsHyphen) == Slug(s)
  {
    hide Collapse, Words, Join, TrimStart, TrimEnd, IsHyphen, WordsAreSound;
    CollapseIsJoined(s);
    WordsSound(s);
    var lead, body, tail := Lead(s), Slug(s), Tail(s);
    if Words(s) != [] {
      JoinEnds(Words(s));
      assert lead + body + tail == lead + (body + tail);
      StripLead(lead, body + tail);
      StripTail(body, tail);
    } else {
      JoinFew("");
      assert lead + body + tail == lead;
      StripNothing(lead);
    }
  }

  // ----- Trimming first makes no difference -----

  lemma {:induction false} WordsIgnoreBack(s: string, back: string)
    requires All(back, c => !IsAlphanumeric(c))
    ensures Words(s + back) == Words(s)
  {
    if back == "" {
      assert s + back == s;
    } else {
      assert (s + back)[..|s + back| - 1] == s + back[..|back| - 1];
      WordsIgnoreBack(s, back[..|back| - 1]);
    }
  }

  lemma {:induction false} WordsIgnoreFront(front: string, s: string)
    requires All(front, c => !IsAlphanumeric(c))
    ensures Words(front + s) == Words(s)
  {
    hide IsAlphanumeric, ToLower;
    if s == "" {
      WordsIgnoreBack("", front);
      assert "" + front == front == front + s;
    } else {
      assert (front + s)[..|front + s| - 1] == front + s[..|s| - 1];
      WordsIgnoreFront(front, s[..|s| - 1]);
      if |s| == 1 && front != "" {
        assert !IsAlphanumeric(front[|front| - 1]);
      }
    }
  }

  lemma TrimKeepsWords(value: string)
    ensures Words(Trim(value)) == Words(value)
  {
    hide Words;
    var front, back := TrimBySplits(value, IsWhitespace);
    WordsIgnoreFront(front, Trim(value));
    WordsIgnoreBack(front + Trim(value), back);
  }

  // ----- Slugs -----

  lemma {:induction false} CollapseCharacters(s: string)
    ensures SlugCharacters(Collapse(s))
  {
    if s != "" {
      CollapseCharacters(s[..|s| - 1]);
      LoweredAlphanumeric(s[|s| - 1]);
    }
  }

  lemma {:induction false} CollapseKeeps(s: string)
    requires SlugCharacters(s)
    ensures Collapse(s) == s
  {
    if s != "" {
      CollapseKeeps(s[..|s| - 1]);
    }
  }

  lemma PieceKeepsCharacters(front: string, body: string, back: string)
    requires SlugCharacters(front + body + back)
    ensures SlugCharacters(body)
  {
    var s := front + body + back;
    assert forall i :: 0 <= i < |body| ==> body[i] == s[|front| + i];
  }

  /** Every result is a slug, and it is empty exactly if the text has no ASCII letter or digit. */
  lemma SlugIsSlug(s: string)
    ensures IsSlug(Slug(s))
    ensures Slug(s) == "" <==> forall i :: 0 <= i < |s| ==> !IsAlphanumeric(s[i])
  {
    hide Collapse, Words, Join, TrimBy, IsAlphanumeric, WordsAreSound;
    CollapseTrims(s);
    CollapseCharacters(s);
    var front, back := TrimBySplits(Collapse(s), IsHyphen);
    PieceKeepsCharacters(front, Slug(s), back);
    WordsSound(s);
    if Words(s) == [] {
      OnlyHyphens(s);
      JoinFew("");
    } else {
      JoinEnds(Words(s));
      HasLetter(s);
    }
  }

  lemma {:induction false} HasLetter(s: string)
    requires Words(s) != []
    ensures exists i :: 0 <= i < |s| && IsAlphanumeric(s[i])
  {
    if !IsAlphanumeric(s[|s| - 1]) {
      HasLetter(s[..|s| - 1]);
      var i :| 0 <= i < |s| - 1 && IsAlphanumeric(s[..|s| - 1][i]);
      assert IsAlphanumeric(s[i]);
    }
  }

  /** The slugs are exactly the texts that making a slug does not change. */
  lemma SlugFixesExactlySlugs(s: string)
    ensures Slug(s) == s <==> IsSlug(s)
  {
    SlugIsSlug(s);
    if IsSlug(s) {
      CollapseKeeps(s);
      CollapseTrims(s);
      TrimByIdentity(s, IsHyphen);
    }
  }

  lemma SlugIdempotent(s: string)
    ensures Slug(Slug(s)) == Slug(s)
  {
    SlugIsSlug(s);
    SlugFixesExactlySlugs(Slug(s));
  }

  // ----- What a slug keeps -----

  /** The letters and digits of a text, in order, in lower case. */
  function Letters(s: string): string {
    if s == "" then "" else Letters(s[..|s| - 1]) + LetterOf(s[|s| - 1])
  }

  /** A letter in lower case, a digit as it is, and nothing for any other character. */
  function LetterOf(c: char): string {
    if 'a' <= c <= 'z' || '0' <= c <= '9' then [c]
    else if 'A' <= c <= 'Z' then [(c as int - 'A' as int + 'a' as int) as char]
    else ""
  }

  lemma {:induction false} LettersJoin(a: string, b: string)
    ensures Letters(a + b) == Letters(a) + Letters(b)
  {
    hide LetterOf;
    if b == "" {
      assert a + b == a;
    } else {
      assert (a + b)[..|a + b| - 1] == a + b[..|b| - 1];
      LettersJoin(a, b[..|b| - 1]);
    }
  }

  lemma LettersOne(front: string, c: char)
    ensures Letters(front + [c]) == Letters(front) + LetterOf(c)
  {
    assert (front + [c])[..|front|] == front;
  }

  lemma LetterOfLowered(c: char)
    ensures IsAlphanumeric(c) ==> LetterOf(ToLower(c)) == LetterOf(c)
    ensures !IsAlphanumeric(c) ==> LetterOf(c) == ""
    ensures LetterOf('-') == ""
  {}

  lemma {:induction false} CollapseKeepsLetters(s: string)
    ensures Letters(Collapse(s)) == Letters(s)
  {
    hide IsAlphanumeric, ToLower, LetterOf, Letters;
    if s == "" {
      NothingCollapsed();
    } else {
      var front, c := s[..|s| - 1], s[|s| - 1];
      assert s == front + [c];
      CollapseKeepsLetters(front);
      CollapseOne(front, c);
      LettersOne(front, c);
      LettersOne(Collapse(front), ToLower(c));
      LettersOne(Collapse(front), '-');
      LetterOfLowered(c);
      assert Letters(front) + "" == Letters(front);
    }
  }

  lemma {:induction false} HyphensAreNoLetters(s: string)
    requires All(s, IsHyphen)
    ensures Letters(s) == ""
  {
    if s != "" {
      HyphensAreNoLetters(s[..|s| - 1]);
      assert s[|s| - 1] == '-';
      LetterOfLowered('-');
    }
  }

  /** A slug keeps exactly the letters and digits of the text, in order, in lower case. */
  lemma SlugKeepsLetters(s: string)
    ensures Letters(Slug(s)) == Letters(s)
  {
    hide Letters, Collapse, Words, Join, TrimBy, All, IsHyphen;
    CollapseTrims(s);
    CollapseKeepsLetters(s);
    var front, back := TrimBySplits(Collapse(s), IsHyphen);
    HyphensAreNoLetters(front);
    HyphensAreNoLetters(back);
    LettersJoin(front + Slug(s), back);
    LettersJoin(front, Slug(s));
    assert "" + Letters(Slug(s)) + "" == Letters(Slug(s));
  }
}
