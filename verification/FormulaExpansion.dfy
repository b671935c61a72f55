/** Expanding the point names of a formula to full telemetry keys. */
module FormulaExpansion {
  import opened Wrappers

  // ---- Tokens ----

  predicate IsLetter(c: char) {
    'a' <= c <= 'z' || 'A' <= c <= 'Z'
  }

  predicate IsTokenChar(c: char) {
    IsLetter(c) || '0' <= c <= '9' || c == '_' || c == '-' || c == ':'
  }

  predicate IsToken(s: string) {
    s != "" && IsLetter(s[0]) && forall i :: 0 <= i < |s| ==> IsTokenChar(s[i])
  }

  /** The length of the longest run of token characters at the front. */
  function RunLength(s: string): (n: nat)
    ensures n <= |s|
    ensures forall i :: 0 <= i < n ==> IsTokenChar(s[i])
    ensures n < |s| ==> !IsTokenChar(s[n])
  {
    if s == "" || !IsTokenChar(s[0]) then 0 else 1 + RunLength(s[1..])
  }

  /** `Regex.Replace` over the tokens: from the left, each as long as possible. */
  function Replace(s: string, rewrite: string -> string): string {
    if s == "" then ""
    else if IsLetter(s[0]) then
      var n := RunLength(s);
      if n == 0 then "" else rewrite(s[..n]) + Replace(s[n..], rewrite)
    else [s[0]] + Replace(s[1..], rewrite)
  }

  function Tokens(s: string): seq<string> {
    if s == "" then []
    else if IsLetter(s[0]) then
      var n := RunLength(s);
      if n == 0 then [] else [s[..n]] + Tokens(s[n..])
    else Tokens(s[1..])
  }

  // ---- Expansion ----

  function Lower(c: char): char {
    if 'A' <= c <= 'Z' then c + 'a' - 'A' else c
  }

  function LowerAll(s: string): (r: string)
    ensures |r| == |s| && forall i :: 0 <= i < |s| ==> r[i] == Lower(s[i])
  {
    if s == "" then "" else [Lower(s[0])] + LowerAll(s[1..])
  }

  predicate PathSumAt(s: string, i: int) {
    0 <= i <= |s| - 8 && LowerAll(s[i..i + 8]) == "pathsum("
  }

  /** `formula.Contains("pathsum(")`, whatever the case of its letters. */
  predicate ContainsPathSum(s: string) {
    exists i :: 0 <= i < |s| && PathSumAt(s, i)
  }

  predicate IsKeyword(token: string) {
    LowerAll(token) == "consumption" || LowerAll(token) == "pathsum"
  }

  /** What comes before the first colon. */
  function Base(token: string): string {
    if token == "" || token[0] == ':' then "" else [token[0]] + Base(token[1..])
  }

  predicate HasKnownPrefix(token: string, devices: seq<string>) {
    exists d :: d in devices && d + "_" <= Base(token)
  }

  function ExpandToken(token: string, device: string, devices: seq<string>): string {
    if IsKeyword(token) || HasKnownPrefix(token, devices) then token else device + "_" + token
  }

  function ExpandFormula(formula: string, device: Option<string>, devices: seq<string>): string {
    if device == None || ContainsPathSum(formula) then formula
    else Replace(formula, token => ExpandToken(token, device.value, devices))
  }

  /** An id that makes one token together with what follows it. */
  predicate WellFormedId(id: string) {
    IsToken(id) && ':' !in id
  }

  // ---- Rewriting tokens to tokens ----

  lemma {:induction false} RunOfToken(token: string, rest: string)
    requires forall i :: 0 <= i < |token| ==> IsTokenChar(token[i])
    requires rest == "" || !IsTokenChar(rest[0])
    ensures RunLength(token + rest) == |token|
  {
    var s := token + rest;
    var n := RunLength(s);
    assert forall i :: 0 <= i < |token| ==> s[i] == token[i];
    assert |token| == |s| || s[|token|] == rest[0];
  }

  /** Where no token starts, the front character is kept. */
  lemma ReplaceKeepsFront(s: string, f: string -> string)
    requires s == "" || !IsTokenChar(s[0])
    ensures var r := Replace(s, f); r == "" || !IsTokenChar(r[0])
  {
  }

  /** Tokens on both sides of a place where no token goes on. */
  lemma {:induction false} TokensConcat(s: string, rest: string)
    requires rest == "" || !IsTokenChar(rest[0])
    ensures Tokens(s + rest) == Tokens(s) + Tokens(rest)
    decreases |s|
  {
    if s == "" {
      assert s + rest == rest;
    } else if IsLetter(s[0]) {
      var n := RunLength(s);
      RunBeforeEnd(s, rest);
      ConcatSlices(s, rest, n);
      TokensConcat(s[n..], rest);
      FirstToken(s);
      FirstToken(s + rest);
      Associative([s[..n]], Tokens(s[n..]), Tokens(rest));
    } else {
      ConcatSlices(s, rest, 1);
      TokensConcat(s[1..], rest);
    }
  }

  lemma FirstToken(s: string)
    requires s != "" && IsLetter(s[0])
    ensures Tokens(s) == [s[..RunLength(s)]] + Tokens(s[RunLength(s)..])
  {
  }

  lemma ConcatSlices(s: string, rest: string, n: nat)
    requires n <= |s|
    ensures (s + rest)[..n] == s[..n] && (s + rest)[n..] == s[n..] + rest
  {
  }

  lemma Associative<T>(a: seq<T>, b: seq<T>, c: seq<T>)
    ensures a + (b + c) == a + b + c
  {
  }

  lemma RunBeforeEnd(s: string, rest: string)
    requires rest == "" || !IsTokenChar(rest[0])
    ensures RunLength(s + rest) == RunLength(s)
  {
    var n := RunLength(s);
    RunOfToken(s[..n], s[n..] + rest);
    assert s + rest == s[..n] + (s[n..] + rest);
  }

  /** Every token of the result comes from what some token was rewritten to. */
  lemma {:induction false} ReplacedToken(s: string, f: string -> string, t: string) returns (from: string)
    requires t in Tokens(Replace(s, f))
    ensures from in Tokens(s) && t in Tokens(f(from))
    decreases |s|
  {
    if IsLetter(s[0]) {
      var n := RunLength(s);
      var rest := Replace(s[n..], f);
      ReplaceKeepsFront(s[n..], f);
      TokensConcat(f(s[..n]), rest);
      if t in Tokens(f(s[..n])) {
        from := s[..n];
      } else {
        from := ReplacedToken(s[n..], f, t);
      }
    } else {
      assert Replace(s, f)[1..] == Replace(s[1..], f);
      from := ReplacedToken(s[1..], f, t);
    }
  }

  ghost predicate LeavesAll(f: string -> string, tokens: seq<string>) {
    forall i :: 0 <= i < |tokens| ==> f(tokens[i]) == tokens[i]
  }

  lemma LeavesRest(f: string -> string, first: string, rest: seq<string>)
    requires LeavesAll(f, [first] + rest)
    ensures f(first) == first && LeavesAll(f, rest)
  {
    var tokens := [first] + rest;
    assert f(tokens[0]) == tokens[0];
    forall i | 0 <= i < |rest| ensures f(rest[i]) == rest[i] {
      assert rest[i] == tokens[i + 1];
    }
  }

  /** Rewriting tokens that stay as they are changes nothing. */
  lemma {:induction false} ReplaceFixed(s: string, f: string -> string)
    requires LeavesAll(f, Tokens(s))
    ensures Replace(s, f) == s
    decreases |s|
  {
    if s == "" {
    } else if IsLetter(s[0]) {
      var n := RunLength(s);
      LeavesRest(f, s[..n], Tokens(s[n..]));
      ReplaceFixed(s[n..], f);
      assert s == s[..n] + s[n..];
    } else {
      ReplaceFixed(s[1..], f);
      assert s == [s[0]] + s[1..];
    }
  }

  lemma {:induction false} TokensAreTokens(s: string, t: string)
    requires t in Tokens(s)
    ensures IsToken(t)
    decreases |s|
  {
    if IsLetter(s[0]) {
      var n := RunLength(s);
      if t != s[..n] {
        TokensAreTokens(s[n..], t);
      }
    } else {
      TokensAreTokens(s[1..], t);
    }
  }

  // ---- Expanding twice ----

  lemma {:induction false} BaseKeepsPrefix(prefix: string, rest: string)
    requires ':' !in prefix
    ensures prefix <= Base(prefix + rest)
  {
    if prefix != "" {
      assert prefix[0] == (prefix + rest)[0] && (prefix + rest)[1..] == prefix[1..] + rest;
      BaseKeepsPrefix(prefix[1..], rest);
    }
  }

  /** Every token is a keyword or carries the id of a known device. */
  predicate Resolved(token: string, devices: seq<string>) {
    IsKeyword(token) || HasKnownPrefix(token, devices)
  }

  /** An id is stable when all tokens of an expanded `x` are resolved. */
  predicate Stable(device: string, devices: seq<string>) {
    forall t :: t in Tokens(device + "_x") ==> Resolved(t, devices)
  }

  lemma TokensOfToken(token: string)
    requires IsToken(token)
    ensures Tokens(token) == [token]
  {
    RunOfToken(token, "");
    assert token + "" == token;
    assert token[..|token|] == token && token[|token|..] == "";
  }

  lemma WellFormedIsStable(device: string, devices: seq<string>)
    requires WellFormedId(device) && device in devices
    ensures Stable(device, devices)
  {
    TokensOfToken(device + "_x");
    BaseKeepsPrefix(device + "_", "x");
    assert device + "_" + "x" == device + "_x";
  }

  /** The tokens before the end of a string, and what a token appended to it joins with. */
  function Ending(s: string): (seq<string>, string) {
    if s == "" then ([], "")
    else if IsLetter(s[0]) then
      var n := RunLength(s);
      if n == 0 || n == |s| then ([], s)
      else ([s[..n]] + Ending(s[n..]).0, Ending(s[n..]).1)
    else Ending(s[1..])
  }

  lemma {:induction false} TokensWithEnd(s: string, t: string)
    requires IsToken(t)
    ensures Tokens(s + t) == Ending(s).0 + [Ending(s).1 + t]
    decreases |s|
  {
    if s == "" {
      TokensOfToken(t);
      assert s + t == t;
    } else if IsLetter(s[0]) {
      var n := RunLength(s);
      if n == |s| {
        TokensOfToken(s + t);
      } else {
        RunOfToken(s[..n], s[n..] + t);
        assert s + t == s[..n] + (s[n..] + t);
        TokensWithEnd(s[n..], t);
        assert (s + t)[..n] == s[..n] && (s + t)[n..] == s[n..] + t;
      }
    } else {
      TokensWithEnd(s[1..], t);
      assert (s + t)[1..] == s[1..] + t;
    }
  }

  /** A known prefix lies before the appended token, whatever that is. */
  lemma PrefixBeforeToken(prefix: string, s: string, t: string)
    requires prefix + "_" <= Base(s + "x")
    ensures prefix + "_" <= Base(s + t)
  {
    var p := prefix + "_";
    BaseIsPrefix(s + "x");
    assert p <= s + "x" && p[|p| - 1] == '_' && (s + "x")[|s|] == 'x';
    assert |p| <= |s|;
    assert forall i :: 0 <= i < |p| ==> p[i] == (s + "x")[i] == s[i];
    assert ':' !in p by {
      assert forall i :: 0 <= i < |p| ==> p[i] == Base(s + "x")[i];
    }
    BaseKeepsPrefix(p, s[|p|..] + t);
    assert s + t == p + (s[|p|..] + t);
  }

  /** With a stable id every expanded token consists of resolved tokens. */
  lemma ExpandedToken(token: string, device: string, devices: seq<string>, t: string)
    requires IsToken(token) && Stable(device, devices) && t in Tokens(ExpandToken(token, device, devices))
    ensures Resolved(t, devices)
  {
    if Resolved(token, devices) {
      TokensOfToken(token);
    } else {
      var before, end := Ending(device + "_").0, Ending(device + "_").1;
      TokensWithEnd(device + "_", "x");
      TokensWithEnd(device + "_", token);
      assert device + "_" + "x" == device + "_x";
      if t !in before {
        assert end + "x" in Tokens(device + "_x");
        NoKeywordEndsInX(end + "x");
        var d :| d in devices && d + "_" <= Base(end + "x");
        PrefixBeforeToken(d, end, token);
      } else {
        assert t in Tokens(device + "_x");
      }
    }
  }

  /** After one expansion by a stable id every token is resolved. */
  lemma ExpandResolves(formula: string, device: string, devices: seq<string>, token: string)
    requires Stable(device, devices) && !ContainsPathSum(formula)
    requires token in Tokens(ExpandFormula(formula, Some(device), devices))
    ensures Resolved(token, devices)
  {
    var f := (t: string) => ExpandToken(t, device, devices);
    var from := ReplacedToken(formula, f, token);
    TokensAreTokens(formula, from);
    ExpandedToken(from, device, devices, token);
  }

  /** A second expansion by a stable id changes nothing. */
  lemma StableIsIdempotent(formula: string, device: string, devices: seq<string>)
    requires Stable(device, devices)
    ensures var once := ExpandFormula(formula, Some(device), devices);
            ExpandFormula(once, Some(device), devices) == once
  {
    var once := ExpandFormula(formula, Some(device), devices);
    if !ContainsPathSum(formula) && !ContainsPathSum(once) {
      forall t | t in Tokens(once) ensures ExpandToken(t, device, devices) == t {
        ExpandResolves(formula, device, devices, t);
      }
      ReplaceFixed(once, t => ExpandToken(t, device, devices));
    }
  }

  /** A configured id that is one token without a colon is stable. */
  lemma ExpandIsIdempotent(formula: string, device: string, devices: seq<string>)
    requires WellFormedId(device) && device in devices
    ensures var once := ExpandFormula(formula, Some(device), devices);
            ExpandFormula(once, Some(device), devices) == once
  {
    WellFormedIsStable(device, devices);
    StableIsIdempotent(formula, device, devices);
  }

  // ---- Nothing is lost ----

  /** Rewriting twice is rewriting by both, as long as tokens stay tokens. */
  lemma {:induction false} ReplaceTwice(s: string, f: string -> string, g: string -> string, both: string -> string)
    requires forall t :: IsToken(t) ==> IsToken(f(t)) && both(t) == g(f(t))
    ensures Replace(Replace(s, f), g) == Replace(s, both)
    decreases |s|
  {
    if s == "" {
    } else if IsLetter(s[0]) {
      var n := RunLength(s);
      var token, rest := f(s[..n]), Replace(s[n..], f);
      assert IsToken(s[..n]);
      ReplaceTwice(s[n..], f, g, both);
      ReplaceKeepsFront(s[n..], f);
      RunOfToken(token, rest);
      assert (token + rest)[..|token|] == token && (token + rest)[|token|..] == rest;
    } else {
      ReplaceTwice(s[1..], f, g, both);
      assert Replace(s, f)[1..] == Replace(s[1..], f);
    }
  }

  /** Takes the device's prefix off a token. */
  function Stripped(token: string, device: string): string {
    if device + "_" <= token then token[|device| + 1..] else token
  }

  lemma StrippedAgain(token: string, device: string, devices: seq<string>)
    requires IsToken(token) && WellFormedId(device)
    ensures IsToken(ExpandToken(token, device, devices))
    ensures !(device + "_" <= token) ==> Stripped(ExpandToken(token, device, devices), device) == token
  {
    assert (device + "_" + token)[|device| + 1..] == token;
  }

  /** Stripping the device's prefix from the expanded formula brings the formula back. */
  lemma ExpansionLosesNothing(formula: string, device: string, devices: seq<string>)
    requires WellFormedId(device) && !ContainsPathSum(formula)
    requires forall t :: t in Tokens(formula) ==> !(device + "_" <= t)
    ensures Replace(ExpandFormula(formula, Some(device), devices), t => Stripped(t, device)) == formula
  {
    var f := (t: string) => ExpandToken(t, device, devices);
    var g := (t: string) => Stripped(t, device);
    var both := (t: string) => g(f(t));
    forall t | IsToken(t) ensures IsToken(f(t)) && both(t) == g(f(t)) {
      StrippedAgain(t, device, devices);
    }
    ReplaceTwice(formula, f, g, both);
    forall t | t in Tokens(formula) ensures both(t) == t {
      TokensAreTokens(formula, t);
      StrippedAgain(t, device, devices);
    }
    ReplaceFixed(formula, both);
  }

  // ---- Exactly when ----

  lemma PathSumWithin(before: string, s: string, after: string)
    requires ContainsPathSum(s)
    ensures ContainsPathSum(before + s + after)
  {
    var i :| 0 <= i < |s| && PathSumAt(s, i);
    assert 0 <= i <= |s| - 8;
    assert (before + s + after)[|before| + i..|before| + i + 8] == s[i..i + 8];
    assert PathSumAt(before + s + after, |before| + i);
  }

  /** What a token is rewritten to is part of the result. */
  lemma {:induction false} ReplaceContains(s: string, f: string -> string, t: string)
    returns (before: string, after: string)
    requires t in Tokens(s)
    ensures Replace(s, f) == before + f(t) + after
    decreases |s|
  {
    if IsLetter(s[0]) {
      var n := RunLength(s);
      if t == s[..n] {
        before, after := "", Replace(s[n..], f);
      } else {
        before, after := ReplaceContains(s[n..], f, t);
        before := f(s[..n]) + before;
      }
    } else {
      before, after := ReplaceContains(s[1..], f, t);
      before := [s[0]] + before;
    }
  }

  /** Where rewriting never shortens a token, a longer token makes a longer result. */
  lemma {:induction false} ReplaceLengthens(s: string, f: string -> string)
    requires forall t :: |f(t)| >= |t|
    ensures |Replace(s, f)| >= |s|
    ensures (exists t :: t in Tokens(s) && |f(t)| > |t|) ==> |Replace(s, f)| > |s|
    decreases |s|
  {
    if s == "" {
    } else if IsLetter(s[0]) {
      ReplaceLengthens(s[RunLength(s)..], f);
    } else {
      ReplaceLengthens(s[1..], f);
    }
  }

  /** A string that ends in a letter has a token at its end. */
  lemma {:induction false} LastToken(s: string) returns (front: string, t: string)
    requires s != "" && IsLetter(s[|s| - 1])
    ensures s == front + t && t in Tokens(s) && IsToken(t)
    decreases |s|
  {
    if IsLetter(s[0]) {
      var n := RunLength(s);
      if n == |s| {
        front, t := "", s;
        assert s[..n] == s;
      } else {
        front, t := LastToken(s[n..]);
        assert s == s[..n] + s[n..];
        front := s[..n] + front;
      }
    } else {
      front, t := LastToken(s[1..]);
      assert s == [s[0]] + s[1..];
      front := [s[0]] + front;
    }
  }

  lemma {:induction false} BaseIsPrefix(token: string)
    ensures Base(token) <= token && ':' !in Base(token)
  {
    if token != "" && token[0] != ':' {
      BaseIsPrefix(token[1..]);
    }
  }

  lemma NoKeywordEndsInX(t: string)
    requires t != "" && t[|t| - 1] == 'x'
    ensures !IsKeyword(t)
  {
    var lower := LowerAll(t);
    assert lower[|t| - 1] == 'x';
    assert |lower| == 11 ==> lower[10] != "consumption"[10];
    assert |lower| == 7 ==> lower[6] != "pathsum"[6];
  }

  /** The token at the end of an expanded `x` does not carry the prefix of an ill-formed id. */
  lemma EndTokenUnresolved(device: string, front: string, t: string)
    requires !WellFormedId(device)
    requires IsToken(t) && device + "_x" == front + t
    ensures !Resolved(t, [device])
  {
    assert t[|t| - 1] == (front + t)[|front| + |t| - 1] == (device + "_x")[|device| + 1] == 'x';
    NoKeywordEndsInX(t);
    BaseIsPrefix(t);
    if front == "" {
      assert t == device + "_x";
      assert ':' in device || device == "" by {
        assert forall i :: 0 <= i < |device| ==> device[i] == t[i];
      }
      assert ':' in device ==> ':' in device + "_";
      assert (device + "_x")[0] == if device == "" then '_' else device[0];
    } else {
      assert |t| <= |device + "_"|;
      assert (device + "_")[|device|] == '_';
    }
  }

  /** With any other id, expanding `x` twice is not expanding it once. */
  lemma UnstableExpandsTwice(device: string, devices: seq<string>)
    requires !Stable(device, devices) && !ContainsPathSum(device)
    ensures var once := ExpandFormula("x", Some(device), devices);
            once == device + "_x" && ExpandFormula(once, Some(device), devices) != once
  {
    var f := (t: string) => ExpandToken(t, device, devices);
    var once := device + "_x";
    ExpandX(device, devices);
    PathSumNotAcross(device);
    var t :| t in Tokens(once) && !Resolved(t, devices);
    assert |f(t)| > |t|;
    ReplaceLengthens(once, f);
  }

  lemma ExpandX(device: string, devices: seq<string>)
    ensures ExpandFormula("x", Some(device), devices) == device + "_x"
  {
    var f := (t: string) => ExpandToken(t, device, devices);
    BaseIsPrefix("x");
    assert forall i :: 0 <= i < |Base("x")| ==> Base("x")[i] == 'x';
    assert forall d :: d in devices ==> (d + "_")[|d|] == '_';
    assert !HasKnownPrefix("x", devices);
    assert |LowerAll("x")| == 1;
    assert RunLength("x") == 1 + RunLength("");
    assert "x"[..1] == "x" && "x"[1..] == "";
    assert Replace("x", f) == f("x") + Replace("", f);
  }

  lemma PathSumBefore(device: string, i: int)
    requires PathSumAt(device + "_x", i)
    ensures i < |device| && PathSumAt(device, i)
  {
    var s := device + "_x";
    assert "pathsum("[7] == '(' && LowerAll(s[i..i + 8])[7] == '(';
    assert s[i..i + 8][7] == s[i + 7];
    assert s[i..i + 8] == device[i..i + 8];
  }

  lemma PathSumNotAcross(device: string)
    requires !ContainsPathSum(device)
    ensures !ContainsPathSum(device + "_x")
  {
    forall i | 0 <= i < |device| + 2 && PathSumAt(device + "_x", i) ensures i < |device| && PathSumAt(device, i) {
      PathSumBefore(device, i);
    }
  }

  /** Expansion is idempotent exactly for stable ids, and for those that contain `pathsum(` themselves. */
  lemma IdempotentIff(device: string, devices: seq<string>)
    ensures (forall formula :: var once := ExpandFormula(formula, Some(device), devices);
                               ExpandFormula(once, Some(device), devices) == once)
            <==> Stable(device, devices) || ContainsPathSum(device)
  {
    if Stable(device, devices) {
      forall formula ensures var once := ExpandFormula(formula, Some(device), devices);
                             ExpandFormula(once, Some(device), devices) == once {
        StableIsIdempotent(formula, device, devices);
      }
    } else if ContainsPathSum(device) {
      forall formula ensures var once := ExpandFormula(formula, Some(device), devices);
                             ExpandFormula(once, Some(device), devices) == once {
        PathSumIdIsIdempotent(formula, device, devices);
      }
    } else {
      UnstableExpandsTwice(device, devices);
    }
  }

  /** Where no other device is configured, the stable ids are those of one token without a colon. */
  lemma StableAloneIff(device: string)
    ensures Stable(device, [device]) <==> WellFormedId(device)
  {
    if WellFormedId(device) {
      WellFormedIsStable(device, [device]);
    } else {
      var front, t := LastToken(device + "_x");
      EndTokenUnresolved(device, front, t);
    }
  }

  lemma Regroup(before: string, device: string, t: string, after: string)
    ensures before + (device + "_" + t) + after == before + device + ("_" + t + after)
  {
  }

  /** An id that itself reads as a path sum stops the second expansion. */
  lemma PathSumIdIsIdempotent(formula: string, device: string, devices: seq<string>)
    requires ContainsPathSum(device)
    ensures var once := ExpandFormula(formula, Some(device), devices);
            ExpandFormula(once, Some(device), devices) == once
  {
    var f := (t: string) => ExpandToken(t, device, devices);
    if !ContainsPathSum(formula) {
      if t :| t in Tokens(formula) && f(t) != t {
        var before, after := ReplaceContains(formula, f, t);
        Regroup(before, device, t, after);
        PathSumWithin(before, device, "_" + t + after);
      } else {
        ReplaceFixed(formula, f);
      }
    }
  }
}
