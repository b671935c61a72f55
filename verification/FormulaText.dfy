/** Formula expansion read off the text: letter by letter, against the expression `[a-zA-Z][a-zA-Z0-9_\-:]*`. */
module FormulaText {
  import opened Wrappers
  import opened FormulaExpansion

  const SMALL: set<char> := {'a', 'b', 'c', 'd', 'e', 'f', 'g', 'h', 'i', 'j', 'k', 'l', 'm', 'n', 'o', 'p', 'q', 'r',
                             's', 't', 'u', 'v', 'w', 'x', 'y', 'z'}
  const CAPITAL: set<char> := {'A', 'B', 'C', 'D', 'E', 'F', 'G', 'H', 'I', 'J', 'K', 'L', 'M', 'N', 'O', 'P', 'Q',
                               'R', 'S', 'T', 'U', 'V', 'W', 'X', 'Y', 'Z'}
  const OTHER: set<char> := {'0', '1', '2', '3', '4', '5', '6', '7', '8', '9', '_', '-', ':'}

  ghost predicate Starts(c: char) {
    c in SMALL || c in CAPITAL
  }

  ghost predicate Continues(c: char) {
    Starts(c) || c in OTHER
  }

  lemma StartsIsLetter(c: char)
    ensures Starts(c) <==> IsLetter(c)
  {
  }

  lemma ContinuesIsTokenChar(c: char)
    ensures Continues(c) <==> IsTokenChar(c)
  {
    StartsIsLetter(c);
  }

  /** A piece of a formula: a word that is looked up, or a character that stays. */
  datatype Piece = Word(text: string) | Plain(c: char) {
    function Text(): string {
      match this
      case Word(text) => text
      case Plain(c) => [c]
    }

    ghost predicate WellFormed() {
      match this
      case Word(text) => text != "" && Starts(text[0]) && forall i :: 0 <= i < |text| ==> Continues(text[i])
      case Plain(c) => !Starts(c)
    }
  }

  function Joined(pieces: seq<Piece>): string {
    if pieces == [] then "" else pieces[0].Text() + Joined(pieces[1..])
  }

  /** From the left each word is as long as possible: what comes behind it does not continue it. */
  ghost predicate Split(pieces: seq<Piece>) {
    && (forall i :: 0 <= i < |pieces| ==> pieces[i].WellFormed())
    && forall i :: 0 <= i < |pieces| - 1 && pieces[i].Word? ==> !Continues(pieces[i + 1].Text()[0])
  }

  lemma SplitRest(pieces: seq<Piece>)
    requires pieces != [] && Split(pieces)
    ensures Split(pieces[1..]) && pieces[0].WellFormed()
    ensures pieces[0].Word? && pieces[1..] != [] ==> Joined(pieces[1..]) != "" && !Continues(Joined(pieces[1..])[0])
  {
    var rest := pieces[1..];
    assert forall i :: 0 <= i < |rest| ==> rest[i] == pieces[i + 1];
    if rest != [] {
      assert rest[0].WellFormed();
    }
  }

  function Renamed(pieces: seq<Piece>, rewrite: string -> string): string {
    if pieces == [] then ""
    else (if pieces[0].Word? then rewrite(pieces[0].text) else [pieces[0].c]) + Renamed(pieces[1..], rewrite)
  }

  /** The replacement goes through exactly these words. */
  lemma {:induction false} ReplaceIsRenamed(pieces: seq<Piece>, rewrite: string -> string)
    requires Split(pieces)
    ensures Replace(Joined(pieces), rewrite) == Renamed(pieces, rewrite)
    ensures Tokens(Joined(pieces)) == WordsOf(pieces)
  {
    if pieces != [] {
      SplitRest(pieces);
      var rest := Joined(pieces[1..]);
      ReplaceIsRenamed(pieces[1..], rewrite);
      match pieces[0]
      case Plain(c) =>
        StartsIsLetter(c);
        assert ([c] + rest)[1..] == rest;
      case Word(text) =>
        WordComesFirst(text, rest);
        assert (text + rest)[..|text|] == text && (text + rest)[|text|..] == rest;
    }
  }

  function WordsOf(pieces: seq<Piece>): seq<string> {
    if pieces == [] then []
    else if pieces[0].Word? then [pieces[0].text] + WordsOf(pieces[1..])
    else WordsOf(pieces[1..])
  }

  lemma WordComesFirst(text: string, rest: string)
    requires Word(text).WellFormed() && (rest != "" ==> !Continues(rest[0]))
    ensures RunLength(text + rest) == |text| && IsLetter((text + rest)[0])
  {
    StartsIsLetter(text[0]);
    forall i | 0 <= i < |text| ensures IsTokenChar(text[i]) {
      ContinuesIsTokenChar(text[i]);
    }
    if rest != "" {
      ContinuesIsTokenChar(rest[0]);
    }
    RunOfToken(text, rest);
  }

  /** Every formula falls into such pieces. */
  lemma {:induction false} Pieces(s: string) returns (pieces: seq<Piece>)
    ensures Split(pieces) && Joined(pieces) == s
    decreases |s|
  {
    pieces := [];
    if s != "" {
      StartsIsLetter(s[0]);
      var n := if IsLetter(s[0]) then RunLength(s) else 1;
      var rest := Pieces(s[n..]);
      var first := if IsLetter(s[0]) then Word(s[..n]) else Plain(s[0]);
      forall i | 0 <= i < n && first.Word? ensures Continues(s[i]) {
        ContinuesIsTokenChar(s[i]);
      }
      if n < |s| {
        ContinuesIsTokenChar(s[n]);
        FirstOfJoined(rest);
      }
      pieces := [first] + rest;
      assert pieces[1..] == rest && s == s[..n] + s[n..];
    }
  }

  lemma FirstOfJoined(pieces: seq<Piece>)
    requires Split(pieces) && Joined(pieces) != ""
    ensures pieces != [] && pieces[0].Text() != "" && Joined(pieces)[0] == pieces[0].Text()[0]
  {
    assert pieces[0].WellFormed();
  }

  /** Letter by letter `word`, in small or capital letters. */
  ghost predicate Reads(text: string, small: string, capital: string)
    requires |small| == |capital|
  {
    |text| == |small| && forall i :: 0 <= i < |text| ==> text[i] == small[i] || text[i] == capital[i]
  }

  /** The two cases of a letter, or a character without case. */
  ghost predicate Cases(small: char, capital: char) {
    || (small in SMALL && capital in CAPITAL && small as int == capital as int + 32)
    || (small == capital && small !in SMALL && small !in CAPITAL)
  }

  lemma LowerIs(c: char, small: char, capital: char)
    requires Cases(small, capital)
    ensures Lower(c) == small <==> c == small || c == capital
  {
  }

  lemma LowerReads(text: string, small: string, capital: string)
    requires |small| == |capital| && forall i :: 0 <= i < |small| ==> Cases(small[i], capital[i])
    ensures LowerAll(text) == small <==> Reads(text, small, capital)
  {
    if |text| == |small| {
      forall i | 0 <= i < |text|
        ensures LowerAll(text)[i] == small[i] <==> text[i] == small[i] || text[i] == capital[i] {
        LowerIs(text[i], small[i], capital[i]);
      }
    }
  }

  lemma KeywordReads(token: string)
    ensures IsKeyword(token) <==>
      Reads(token, "consumption", "CONSUMPTION") || Reads(token, "pathsum", "PATHSUM")
  {
    LowerReads(token, "consumption", "CONSUMPTION");
    LowerReads(token, "pathsum", "PATHSUM");
  }

  ghost predicate SumsPathAt(s: string, i: int) {
    0 <= i && i + 8 <= |s| && Reads(s[i..i + 8], "pathsum(", "PATHSUM(")
  }

  /** `pathsum(` in small or capital letters stands somewhere in the text. */
  ghost predicate SumsPath(s: string) {
    exists i :: SumsPathAt(s, i)
  }

  lemma PathSumReads(s: string)
    ensures ContainsPathSum(s) <==> SumsPath(s)
  {
    forall i ensures PathSumAt(s, i) <==> SumsPathAt(s, i) {
      if 0 <= i && i + 8 <= |s| {
        LowerReads(s[i..i + 8], "pathsum(", "PATHSUM(");
      }
    }
    if SumsPath(s) {
      var i :| SumsPathAt(s, i);
      assert PathSumAt(s, i);
    }
  }

  /** The token begins with the id of a device, which has no colon, and an underscore. */
  ghost predicate Carries(token: string, devices: seq<string>) {
    exists d :: d in devices && ':' !in d && d + "_" <= token
  }

  lemma PrefixCarries(token: string, devices: seq<string>)
    ensures HasKnownPrefix(token, devices) <==> Carries(token, devices)
  {
    BaseIsPrefix(token);
    if HasKnownPrefix(token, devices) {
      var d :| d in devices && d + "_" <= Base(token);
      assert forall i :: 0 <= i < |d| ==> d[i] == (d + "_")[i] == Base(token)[i];
    }
    if Carries(token, devices) {
      var d :| d in devices && ':' !in d && d + "_" <= token;
      BaseKeepsPrefix(d + "_", token[|d| + 1..]);
      assert token == d + "_" + token[|d| + 1..];
    }
  }

  /** What becomes of a word. */
  ghost function Rewritten(word: string, device: string, devices: seq<string>): string {
    if Reads(word, "consumption", "CONSUMPTION") || Reads(word, "pathsum", "PATHSUM") || Carries(word, devices)
    then word else device + "_" + word
  }

  ghost function Expanded(pieces: seq<Piece>, device: string, devices: seq<string>): string {
    if pieces == [] then ""
    else (if pieces[0].Word? then Rewritten(pieces[0].text, device, devices) else [pieces[0].c])
         + Expanded(pieces[1..], device, devices)
  }

  lemma {:induction false} RenamedIsExpanded(pieces: seq<Piece>, device: string, devices: seq<string>)
    ensures Renamed(pieces, t => ExpandToken(t, device, devices)) == Expanded(pieces, device, devices)
  {
    if pieces != [] {
      RenamedIsExpanded(pieces[1..], device, devices);
      if pieces[0].Word? {
        KeywordReads(pieces[0].text);
        PrefixCarries(pieces[0].text, devices);
      }
    }
  }

  /**
   * Expansion, whatever the formula: one that sums a path stays as it is; in any other each word gets the id of the
   * device in front, unless it is a keyword or carries the id of a device already.
   */
  lemma ExpansionIs(pieces: seq<Piece>, device: string, devices: seq<string>)
    requires Split(pieces)
    ensures ExpandFormula(Joined(pieces), Some(device), devices)
         == if SumsPath(Joined(pieces)) then Joined(pieces) else Expanded(pieces, device, devices)
  {
    PathSumReads(Joined(pieces));
    ReplaceIsRenamed(pieces, t => ExpandToken(t, device, devices));
    RenamedIsExpanded(pieces, device, devices);
  }
}
