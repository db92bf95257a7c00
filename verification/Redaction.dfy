// Log redaction: the substitution of API keys and webhook secrets, as a leftmost-greedy scanner.
module Redaction {

  // The first two patterns of the redactor.
  datatype Pattern = ApiKeyPattern | WebhookSecretPattern

  const MASK := "...[REDACTED]"

  predicate AlNum(c: char) {
    'a' <= c <= 'z' || 'A' <= c <= 'Z' || '0' <= c <= '9'
  }

  predicate Word(c: char) {
    AlNum(c) || c == '_'
  }

  // The fixed text a pattern starts with.
  predicate Literal(p: Pattern, s: string) {
    match p
    case ApiKeyPattern => "pg_live_" <= s || "pg_test_" <= s
    case WebhookSecretPattern => "whsec_" <= s
  }

  function LiteralLength(p: Pattern): nat {
    if p.ApiKeyPattern? then 8 else 6
  }

  // How much of a match stays visible: the literal, and four characters of an API key.
  function Keep(p: Pattern): nat {
    if p.ApiKeyPattern? then 12 else 6
  }

  function RunLength(s: string): (n: nat)
    ensures n <= |s|
    ensures forall i :: 0 <= i < n ==> AlNum(s[i])
    ensures n < |s| ==> !AlNum(s[n])
  {
    if s != "" && AlNum(s[0]) then 1 + RunLength(s[1..]) else 0
  }

  // The length of the longest match of p at the start of s, 0 when there is none.
  function MatchLength(p: Pattern, s: string): (n: nat)
    ensures n == 0 || Keep(p) < n <= |s|
  {
    if !Literal(p, s) then 0
    else
      var n := LiteralLength(p) + RunLength(s[LiteralLength(p)..]);
      if n > Keep(p) then n else 0
  }

  // pattern.sub: replace every match, left to right.
  function Sub(p: Pattern, s: string): string {
    if s == "" then ""
    else
      var n := MatchLength(p, s);
      if n > 0 then s[..Keep(p)] + MASK + Sub(p, s[n..])
      else [s[0]] + Sub(p, s[1..])
  }

  function Redacted(s: string): string {
    Sub(WebhookSecretPattern, Sub(ApiKeyPattern, s))
  }

  method Redact(text: string) returns (result: string)
    ensures result == Redacted(text)
    ensures Clean(ApiKeyPattern, result) && Clean(WebhookSecretPattern, result)
  {
    var patterns := [ApiKeyPattern, WebhookSecretPattern];
    result := text;
    for i := 0 to |patterns|
      invariant result == if i == 0 then text else if i == 1 then Sub(ApiKeyPattern, text) else Redacted(text)
    {
      result := Sub(patterns[i], result);
    }
    NothingLeft(text);
  }

  // ---------- Nothing is left to match ----------

  // No substring matches p.
  ghost predicate Clean(p: Pattern, s: string) {
    forall i :: 0 <= i <= |s| ==> MatchLength(p, s[i..]) == 0
  }

  // The shortest text that matches: the visible part and one more character.
  ghost predicate Head(p: Pattern, s: string) {
    && |s| > Keep(p) && Literal(p, s)
    && forall i :: LiteralLength(p) <= i <= Keep(p) ==> AlNum(s[i])
  }

  lemma HeadMatches(p: Pattern, s: string)
    ensures MatchLength(p, s) > 0 <==> Head(p, s)
  {
    if Literal(p, s) {
      var rest := s[LiteralLength(p)..];
      var n := RunLength(rest);
      assert forall i :: LiteralLength(p) <= i < |s| ==> s[i] == rest[i - LiteralLength(p)];
    }
  }

  lemma HeadIsWord(p: Pattern, s: string)
    requires Head(p, s)
    ensures forall i :: 0 <= i <= Keep(p) ==> Word(s[i])
    ensures s[0] == 'p' || s[0] == 'w'
  {
    match p
    case ApiKeyPattern =>
      if "pg_live_" <= s {
        assert s[..8] == "pg_live_";
      } else {
        assert s[..8] == "pg_test_";
      }
      assert forall i :: 0 <= i < 8 ==> s[i] == s[..8][i];
    case WebhookSecretPattern =>
      assert s[..6] == "whsec_";
      assert forall i :: 0 <= i < 6 ==> s[i] == s[..6][i];
  }

  lemma HeadLocal(p: Pattern, s: string, t: string)
    requires Head(p, s) && |t| > Keep(p) && t[..Keep(p) + 1] == s[..Keep(p) + 1]
    ensures Head(p, t)
  {
    assert forall i :: 0 <= i <= Keep(p) ==> t[i] == t[..Keep(p) + 1][i] == s[i];
  }

  // A stretch of word characters at the start of a substitution's result was there before it.
  lemma {:induction false} WordsWereThere(p: Pattern, s: string, n: nat)
    requires n <= |Sub(p, s)| && forall i :: 0 <= i < n ==> Word(Sub(p, s)[i])
    ensures n <= |s| && s[..n] == Sub(p, s)[..n]
  {
    if s != "" && n > 0 {
      var m := MatchLength(p, s);
      if m > 0 {
        assert Sub(p, s)[Keep(p)] == '.';
      } else {
        assert Sub(p, s)[1..] == Sub(p, s[1..]);
        WordsWereThere(p, s[1..], n - 1);
        assert s[..n] == [s[0]] + s[1..][..n - 1];
      }
    }
  }

  // Substituting p leaves no match of q, if q is p itself or had no match before.
  lemma {:induction false} SubCleans(p: Pattern, q: Pattern, s: string)
    requires Keep(p) <= Keep(q) && (p == q || Clean(q, s))
    ensures Clean(q, Sub(p, s))
  {
    var t := Sub(p, s);
    if s == "" {
      HeadMatches(q, "");
      assert t[0..] == "";
    } else {
      var m := MatchLength(p, s);
      var skip := if m > 0 then m else 1;
      var front := if m > 0 then Keep(p) + |MASK| else 1;
      if p != q {
        CleanSuffix(q, s, skip);
      }
      SubCleans(p, q, s[skip..]);
      assert t[front..] == Sub(p, s[skip..]);
      forall i | 0 <= i <= |t|
        ensures MatchLength(q, t[i..]) == 0
      {
        HeadMatches(q, t[i..]);
        if i >= front {
          assert t[i..] == t[front..][i - front..];
        } else if m > 0 {
          MaskBlocks(q, s[..Keep(p)], Sub(p, s[m..]), i);
        } else {
          assert t[0..] == t;
          CopyBlocks(p, q, s);
        }
      }
    }
  }

  lemma NotHead(p: Pattern, s: string, i: nat)
    requires i < |s| && i <= Keep(p) && (!Word(s[i]) || (i == 0 && s[0] != 'p' && s[0] != 'w'))
    ensures !Head(p, s)
  {
    if Head(p, s) {
      HeadIsWord(p, s);
    }
  }

  // No match can start in the visible part of a secret or in its mask: it would have to run across a dot.
  lemma MaskBlocks(q: Pattern, kept: string, rest: string, i: nat)
    requires |kept| <= Keep(q) && i < |kept| + |MASK|
    ensures !Head(q, (kept + MASK + rest)[i..])
  {
    var t := kept + MASK + rest;
    if i < |kept| {
      assert t[i..][|kept| - i] == t[|kept|] == '.';
      NotHead(q, t[i..], |kept| - i);
    } else {
      assert t[i..][0] == t[i] == MASK[i - |kept|];
      NotHead(q, t[i..], 0);
    }
  }

  lemma CopyBlocks(p: Pattern, q: Pattern, s: string)
    requires p == q || Clean(q, s)
    requires s != "" && MatchLength(p, s) == 0
    ensures !Head(q, Sub(p, s))
  {
    hide Sub, MatchLength, Head;
    assert s[0..] == s;
    HeadMatches(q, s);
    if Head(q, Sub(p, s)) {
      HeadSize(q, Sub(p, s));
      HeadIsWord(q, Sub(p, s));
      WordsWereThere(p, s, Keep(q) + 1);
      HeadLocal(q, Sub(p, s), s);
    }
  }

  lemma HeadSize(p: Pattern, s: string)
    requires Head(p, s)
    ensures |s| > Keep(p)
  {
  }

  lemma CleanSuffix(p: Pattern, s: string, k: nat)
    requires Clean(p, s) && k <= |s|
    ensures Clean(p, s[k..])
  {
    forall i | 0 <= i <= |s[k..]|
      ensures MatchLength(p, s[k..][i..]) == 0
    {
      assert s[k..][i..] == s[k + i..];
    }
  }

  // After both passes no substring matches either pattern.
  lemma NothingLeft(s: string)
    ensures Clean(ApiKeyPattern, Redacted(s)) && Clean(WebhookSecretPattern, Redacted(s))
  {
    SubCleans(ApiKeyPattern, ApiKeyPattern, s);
    SubCleans(WebhookSecretPattern, ApiKeyPattern, Sub(ApiKeyPattern, s));
    SubCleans(WebhookSecretPattern, WebhookSecretPattern, Sub(ApiKeyPattern, s));
  }

  lemma {:induction false} CleanIsFixed(p: Pattern, s: string)
    requires Clean(p, s)
    ensures Sub(p, s) == s
  {
    if s == "" {
    } else {
      assert s[0..] == s;
      CleanSuffix(p, s, 1);
      CleanIsFixed(p, s[1..]);
    }
  }

  // Redacting a second time changes nothing.
  lemma RedactedTwice(s: string)
    ensures Redacted(Redacted(s)) == Redacted(s)
  {
    NothingLeft(s);
    CleanIsFixed(ApiKeyPattern, Redacted(s));
    CleanIsFixed(WebhookSecretPattern, Redacted(s));
  }

  // ---------- Text outside the matches is copied ----------

  // A text cut into single characters and secrets.
  datatype Piece = Copied(c: char) | Secret(text: string)

  function Original(pieces: seq<Piece>): string {
    if pieces == [] then ""
    else (match pieces[0] case Copied(c) => [c] case Secret(text) => text) + Original(pieces[1..])
  }

  // What a reader of the log sees of a piece: all of a copied one, the visible start of a secret.
  function Shown(p: Pattern, pieces: seq<Piece>): string
    requires forall k :: 0 <= k < |pieces| && pieces[k].Secret? ==> |pieces[k].text| >= Keep(p)
  {
    if pieces == [] then ""
    else (match pieces[0] case Copied(c) => [c] case Secret(text) => text[..Keep(p)] + MASK) + Shown(p, pieces[1..])
  }

  // The leftmost-greedy cut: a secret is the longest match where it starts, and no match starts at a copied
  // character.
  ghost predicate Cut(p: Pattern, pieces: seq<Piece>) {
    pieces == [] ||
    (var n := MatchLength(p, Original(pieces));
     && (match pieces[0] case Copied(_) => n == 0 case Secret(text) => n > 0 && |text| == n)
     && Cut(p, pieces[1..]))
  }

  // Every text has a leftmost-greedy cut.
  lemma {:induction false} CutExists(p: Pattern, s: string) returns (pieces: seq<Piece>)
    ensures Cut(p, pieces) && Original(pieces) == s
    decreases |s|
  {
    if s == "" {
      pieces := [];
    } else {
      var n := MatchLength(p, s);
      var rest := CutExists(p, if n > 0 then s[n..] else s[1..]);
      pieces := [if n > 0 then Secret(s[..n]) else Copied(s[0])] + rest;
      assert pieces[1..] == rest;
      assert Original(pieces) == s;
    }
  }

  // Substitution shows exactly the leftmost-greedy cut of its input: copied characters unchanged and in
  // order, of each secret its visible start and the mask.
  lemma {:induction false} SubShowsCut(p: Pattern, pieces: seq<Piece>)
    requires Cut(p, pieces)
    ensures forall k :: 0 <= k < |pieces| && pieces[k].Secret? ==> |pieces[k].text| >= Keep(p)
    ensures Shown(p, pieces) == Sub(p, Original(pieces))
    decreases |pieces|
  {
    hide MatchLength;
    if pieces == [] {
    } else {
      SubShowsCut(p, pieces[1..]);
      var s := Original(pieces);
      match pieces[0]
      case Copied(c) => assert s[1..] == Original(pieces[1..]);
      case Secret(text) =>
        assert s[|text|..] == Original(pieces[1..]);
        assert s[..Keep(p)] == text[..Keep(p)];
    }
  }

  // Every string has a leftmost-greedy cut, and a pass shows exactly that cut.
  lemma EveryStringShown(p: Pattern, s: string) returns (pieces: seq<Piece>)
    ensures Cut(p, pieces) && Original(pieces) == s
    ensures forall k :: 0 <= k < |pieces| && pieces[k].Secret? ==> |pieces[k].text| >= Keep(p)
    ensures Shown(p, pieces) == Sub(p, s)
  {
    pieces := CutExists(p, s);
    SubShowsCut(p, pieces);
  }

  // ---------- What a reader sees of a secret ----------

  // By code point.
  predicate LetterOrDigit(c: char) {
    48 <= c as int <= 57 || 65 <= c as int <= 90 || 97 <= c as int <= 122
  }

  lemma Alphabet(c: char)
    ensures LetterOrDigit(c) <==> AlNum(c)
  {
  }

  lemma {:induction false} RunOf(k: string, rest: string)
    requires (forall c :: c in k ==> LetterOrDigit(c)) && (rest == "" || !LetterOrDigit(rest[0]))
    ensures RunLength(k + rest) == |k|
  {
    if k == "" {
      assert k + rest == rest;
      if rest != "" {
        Alphabet(rest[0]);
      }
    } else {
      assert k[0] in k;
      Alphabet(k[0]);
      assert (k + rest)[1..] == k[1..] + rest;
      RunOf(k[1..], rest);
    }
  }

  // An API key with five or more characters shows its mark and four of them, and the rest of the text is
  // redacted in turn. Shorter keys are left as they are.
  lemma ApiKeyShown(mark: string, k: string, rest: string)
    requires mark == "pg_live_" || mark == "pg_test_"
    requires (forall c :: c in k ==> LetterOrDigit(c)) && (rest == "" || !LetterOrDigit(rest[0]))
    ensures |k| >= 5 ==>
      Sub(ApiKeyPattern, mark + k + rest) == mark + k[..4] + "...[REDACTED]" + Sub(ApiKeyPattern, rest)
    ensures |k| <= 4 ==> MatchLength(ApiKeyPattern, mark + k + rest) == 0
  {
    hide RunLength, AlNum, LetterOrDigit, Sub;
    var s := mark + k + rest;
    RunOf(k, rest);
    assert mark <= s && s[8..] == k + rest;
    if |k| >= 5 {
      assert s[8 + |k|..] == rest && s[..12] == mark + k[..4];
      SubStep(ApiKeyPattern, s);
    }
  }

  lemma SubStep(p: Pattern, s: string)
    requires s != "" && MatchLength(p, s) > 0
    ensures Sub(p, s) == s[..Keep(p)] + "...[REDACTED]" + Sub(p, s[MatchLength(p, s)..])
  {
  }

  // A webhook secret shows its mark alone.
  lemma WebhookSecretShown(k: string, rest: string)
    requires (forall c :: c in k ==> LetterOrDigit(c)) && (rest == "" || !LetterOrDigit(rest[0]))
    ensures k != "" ==>
      Sub(WebhookSecretPattern, "whsec_" + k + rest) == "whsec_" + "...[REDACTED]" + Sub(WebhookSecretPattern, rest)
    ensures k == "" ==> MatchLength(WebhookSecretPattern, "whsec_" + k + rest) == 0
  {
    hide RunLength, AlNum, LetterOrDigit, Sub;
    var mark := "whsec_";
    var s := mark + k + rest;
    RunOf(k, rest);
    assert mark <= s && s[6..] == k + rest;
    if k != "" {
      assert s[6 + |k|..] == rest && s[..6] == mark;
      SubStep(WebhookSecretPattern, s);
    }
  }

  // Text without a letter w holds no webhook secret.
  lemma NoSecretWithoutW(s: string)
    requires 'w' !in s
    ensures Sub(WebhookSecretPattern, s) == s
  {
    forall i | 0 <= i <= |s|
      ensures MatchLength(WebhookSecretPattern, s[i..]) == 0
    {
      assert i < |s| ==> s[i..][0] in s;
      assert "whsec_"[0] == 'w';
    }
    CleanIsFixed(WebhookSecretPattern, s);
  }
}
