/** The glob matcher of the KEYS command (string_match_len in raft-kv/server/redis_store.cpp), with and
    without regard to case, against the language of a pattern: a text is in it when it can be cut into
    consecutive pieces, one per token of the pattern. */
module Glob {

  /** A signed char; comparisons of ranges are signed. */
  type symbol = x: int | -128 <= x < 128

  const STAR: symbol := 42
  const QUESTION: symbol := 63
  const OPEN: symbol := 91
  const CLOSE: symbol := 93
  const CARET: symbol := 94
  const BACKSLASH: symbol := 92
  const DASH: symbol := 45

  // ---------------------------------------------------------------- the pattern language

  datatype Item = One(c: symbol) | Escaped(c: symbol) | Range(a: symbol, b: symbol)

  datatype Token = Star | Any | Lit(c: symbol) | Class(negated: bool, items: seq<Item>)

  /** The items of a class and what follows it. A class ends at the first bracket that is neither
      escaped nor the end of a range, or with the pattern. */
  function ClassItems(p: seq<symbol>): (r: (seq<Item>, seq<symbol>))
    ensures |r.1| <= |p|
  {
    if p == [] then ([], [])
    else if p[0] == BACKSLASH && |p| >= 2 then
      var (items, rest) := ClassItems(p[2..]); ([Escaped(p[1])] + items, rest)
    else if p[0] == CLOSE then ([], p[1..])
    else if |p| >= 3 && p[1] == DASH then
      var (items, rest) := ClassItems(p[3..]); ([Range(p[0], p[2])] + items, rest)
    else
      var (items, rest) := ClassItems(p[1..]); ([One(p[0])] + items, rest)
  }

  function StartsNegated(p: seq<symbol>): bool {
    p != [] && p[0] == CARET
  }

  function Tokens(p: seq<symbol>): seq<Token>
    decreases |p|
  {
    if p == [] then []
    else if p[0] == STAR then [Star] + Tokens(p[1..])
    else if p[0] == QUESTION then [Any] + Tokens(p[1..])
    else if p[0] == OPEN then
      var body := p[1..];
      var (items, rest) := ClassItems(if StartsNegated(body) then body[1..] else body);
      [Class(StartsNegated(body), items)] + Tokens(rest)
    else if p[0] == BACKSLASH && |p| >= 2 then [Lit(p[1])] + Tokens(p[2..])
    else [Lit(p[0])] + Tokens(p[1..])
  }

  /** tolower in the C locale. */
  function Lower(c: symbol): symbol {
    if 65 <= c <= 90 then c + 32 else c
  }

  function Fold(nocase: bool, c: symbol): symbol {
    if nocase then Lower(c) else c
  }

  /** An escaped item is always exact. A range holds whatever the order of its ends, which are ordered before
      they are folded. */
  predicate ItemHolds(nocase: bool, it: Item, c: symbol) {
    match it
    case One(x) => Fold(nocase, x) == Fold(nocase, c)
    case Escaped(x) => x == c
    case Range(a, b) =>
      if a <= b then Fold(nocase, a) <= Fold(nocase, c) <= Fold(nocase, b)
      else Fold(nocase, b) <= Fold(nocase, c) <= Fold(nocase, a)
  }

  predicate SomeItem(nocase: bool, items: seq<Item>, c: symbol) {
    exists k :: 0 <= k < |items| && ItemHolds(nocase, items[k], c)
  }

  /** The characters a token other than a star stands for. */
  predicate Accepts(nocase: bool, t: Token, c: symbol) {
    match t
    case Star => false
    case Any => true
    case Lit(x) => Fold(nocase, x) == Fold(nocase, c)
    case Class(negated, items) => SomeItem(nocase, items, c) != negated
  }

  predicate PieceOk(nocase: bool, t: Token, piece: seq<symbol>) {
    t.Star? || (|piece| == 1 && Accepts(nocase, t, piece[0]))
  }

  function Joined(pieces: seq<seq<symbol>>): seq<symbol> {
    if pieces == [] then [] else pieces[0] + Joined(pieces[1..])
  }

  /** One piece per token, each of the right kind. */
  ghost predicate PiecesOk(nocase: bool, ts: seq<Token>, pieces: seq<seq<symbol>>) {
    |pieces| == |ts| && forall i :: 0 <= i < |ts| ==> PieceOk(nocase, ts[i], pieces[i])
  }

  ghost predicate InLanguage(nocase: bool, ts: seq<Token>, s: seq<symbol>) {
    exists pieces :: PiecesOk(nocase, ts, pieces) && Joined(pieces) == s
  }

  // ---------------------------------------------------------------- the language token by token

  lemma NoTokens(nocase: bool, s: seq<symbol>)
    ensures InLanguage(nocase, [], s) <==> s == []
  {
    if s == [] {
      assert PiecesOk(nocase, [], []) && Joined([]) == s;
    }
  }

  /** Prepending a piece of length `n`. */
  lemma Prepend(nocase: bool, t: Token, ts: seq<Token>, s: seq<symbol>, n: nat)
    requires n <= |s| && PieceOk(nocase, t, s[..n]) && InLanguage(nocase, ts, s[n..])
    ensures InLanguage(nocase, [t] + ts, s)
  {
    var pieces :| PiecesOk(nocase, ts, pieces) && Joined(pieces) == s[n..];
    var all := [s[..n]] + pieces;
    assert all[1..] == pieces;
    assert PiecesOk(nocase, [t] + ts, all) && Joined(all) == s;
  }

  /** Taking the first piece away. */
  lemma Behead(nocase: bool, t: Token, ts: seq<Token>, s: seq<symbol>) returns (n: nat)
    requires InLanguage(nocase, [t] + ts, s)
    ensures n <= |s| && PieceOk(nocase, t, s[..n]) && InLanguage(nocase, ts, s[n..])
  {
    var all := [t] + ts;
    var pieces :| PiecesOk(nocase, all, pieces) && Joined(pieces) == s;
    n := |pieces[0]|;
    assert PieceOk(nocase, all[0], pieces[0]) && s[..n] == pieces[0];
    assert forall i :: 0 <= i < |ts| ==> ts[i] == all[i + 1];
    assert PiecesOk(nocase, ts, pieces[1..]) && Joined(pieces[1..]) == s[n..];
  }

  /** A token other than a star takes exactly one accepted character. */
  lemma OneToken(nocase: bool, t: Token, ts: seq<Token>, s: seq<symbol>)
    requires !t.Star?
    ensures InLanguage(nocase, [t] + ts, s) <==> s != [] && Accepts(nocase, t, s[0]) && InLanguage(nocase, ts, s[1..])
  {
    hide InLanguage;
    if InLanguage(nocase, [t] + ts, s) {
      var n := Behead(nocase, t, ts, s);
    }
    if s != [] && Accepts(nocase, t, s[0]) && InLanguage(nocase, ts, s[1..]) {
      Prepend(nocase, t, ts, s, 1);
    }
  }

  /** A star takes nothing, or one character and goes on. */
  lemma StarToken(nocase: bool, ts: seq<Token>, s: seq<symbol>)
    ensures InLanguage(nocase, [Star] + ts, s) <==> InLanguage(nocase, ts, s) || (s != [] && InLanguage(nocase, [Star] + ts, s[1..]))
  {
    hide InLanguage;
    assert s[0..] == s;
    if InLanguage(nocase, [Star] + ts, s) {
      var n := Behead(nocase, Star, ts, s);
      if n > 0 {
        assert s[1..][n - 1..] == s[n..];
        Prepend(nocase, Star, ts, s[1..], n - 1);
      }
    }
    if InLanguage(nocase, ts, s) {
      Prepend(nocase, Star, ts, s, 0);
    }
    if s != [] && InLanguage(nocase, [Star] + ts, s[1..]) {
      var n := Behead(nocase, Star, ts, s[1..]);
      assert s[1..][n..] == s[n + 1..];
      Prepend(nocase, Star, ts, s, n + 1);
    }
  }

  lemma {:induction false} StarStar(nocase: bool, ts: seq<Token>, s: seq<symbol>)
    ensures InLanguage(nocase, [Star] + ([Star] + ts), s) <==> InLanguage(nocase, [Star] + ts, s)
    decreases |s|
  {
    hide InLanguage;
    StarToken(nocase, [Star] + ts, s);
    StarToken(nocase, ts, s);
    if s != [] {
      StarStar(nocase, ts, s[1..]);
    }
  }

  lemma {:induction false} StarAlone(nocase: bool, s: seq<symbol>)
    ensures InLanguage(nocase, [Star], s)
    decreases |s|
  {
    hide InLanguage;
    assert [Star] + [] == [Star];
    StarToken(nocase, [], s);
    if s == [] {
      NoTokens(nocase, s);
    } else {
      StarAlone(nocase, s[1..]);
    }
  }

  // ---------------------------------------------------------------- the matcher

  /** The pattern is followed by a NUL. */
  function At(pat: seq<symbol>, i: nat): symbol {
    if i < |pat| then pat[i] else 0
  }

  lemma SomeItemCons(nocase: bool, it: Item, items: seq<Item>, c: symbol)
    ensures SomeItem(nocase, [it] + items, c) <==> ItemHolds(nocase, it, c) || SomeItem(nocase, items, c)
  {
    var all := [it] + items;
    assert all[0] == it;
    if SomeItem(nocase, items, c) {
      var k :| 0 <= k < |items| && ItemHolds(nocase, items[k], c);
      assert all[k + 1] == items[k];
    }
    if SomeItem(nocase, all, c) {
      var k :| 0 <= k < |all| && ItemHolds(nocase, all[k], c);
      assert k == 0 || all[k] == items[k - 1];
    }
  }

  /** What the items from position `p` on amount to. */
  ghost predicate HoldsFrom(nocase: bool, pat: seq<symbol>, p: nat, c: symbol)
    requires p <= |pat|
  {
    SomeItem(nocase, ClassItems(pat[p..]).0, c)
  }

  function RestFrom(pat: seq<symbol>, p: nat): seq<symbol>
    requires p <= |pat|
  {
    ClassItems(pat[p..]).1
  }

  /** One item of a class, by position. */
  lemma ClassStep(nocase: bool, pat: seq<symbol>, p: nat, c: symbol)
    requires p < |pat|
    ensures if pat[p] == BACKSLASH && |pat| - p >= 2 then
              (HoldsFrom(nocase, pat, p, c) <==> pat[p + 1] == c || HoldsFrom(nocase, pat, p + 2, c)) && RestFrom(pat, p) == RestFrom(pat, p + 2)
            else if pat[p] == CLOSE then !HoldsFrom(nocase, pat, p, c) && RestFrom(pat, p) == pat[p + 1..]
            else if |pat| - p >= 3 && pat[p + 1] == DASH then
              && (HoldsFrom(nocase, pat, p, c) <==> ItemHolds(nocase, Range(pat[p], pat[p + 2]), c) || HoldsFrom(nocase, pat, p + 3, c))
              && RestFrom(pat, p) == RestFrom(pat, p + 3)
            else (HoldsFrom(nocase, pat, p, c) <==> Fold(nocase, pat[p]) == Fold(nocase, c) || HoldsFrom(nocase, pat, p + 1, c)) && RestFrom(pat, p) == RestFrom(pat, p + 1)
  {
    hide SomeItem;
    var left := pat[p..];
    NoItem(nocase, c);
    if pat[p] == BACKSLASH && |pat| - p >= 2 {
      assert left[2..] == pat[p + 2..];
      SomeItemCons(nocase, Escaped(pat[p + 1]), ClassItems(left[2..]).0, c);
    } else if pat[p] == CLOSE {
      assert left[1..] == pat[p + 1..];
    } else if |pat| - p >= 3 && pat[p + 1] == DASH {
      assert left[3..] == pat[p + 3..];
      SomeItemCons(nocase, Range(pat[p], pat[p + 2]), ClassItems(left[3..]).0, c);
    } else {
      assert left[1..] == pat[p + 1..];
      SomeItemCons(nocase, One(pat[p]), ClassItems(left[1..]).0, c);
    }
  }

  lemma ClassEnd(nocase: bool, pat: seq<symbol>, c: symbol)
    ensures !HoldsFrom(nocase, pat, |pat|, c) && RestFrom(pat, |pat|) == []
  {
  }

  /** The loop over a class: whether some item holds, and the position of the class's last character. */
  method MatchClass(nocase: bool, pat: seq<symbol>, from: nat, c: symbol) returns (found: bool, p: nat)
    requires 0 < from <= |pat|
    ensures from - 1 <= p < |pat| && pat[p + 1..] == RestFrom(pat, from)
    ensures found == HoldsFrom(nocase, pat, from, c)
  {
    hide HoldsFrom, RestFrom;
    p, found := from, false;
    while true
      invariant from <= p <= |pat|
      invariant RestFrom(pat, p) == RestFrom(pat, from)
      invariant HoldsFrom(nocase, pat, from, c) <==> found || HoldsFrom(nocase, pat, p, c)
      decreases |pat| - p
    {
      if p < |pat| {
        ClassStep(nocase, pat, p, c);
      } else {
        ClassEnd(nocase, pat, c);
      }
      if At(pat, p) == BACKSLASH && |pat| - p >= 2 {
        p := p + 1;
        if pat[p] == c {
          found := true;
        }
      } else if At(pat, p) == CLOSE {
        break;
      } else if |pat| - p == 0 {
        p := p - 1;
        break;
      } else if At(pat, p + 1) == DASH && |pat| - p >= 3 {
        var start, end, d := pat[p], pat[p + 2], c;
        if start > end {
          start, end := end, start;
        }
        if nocase {
          start, end, d := Lower(start), Lower(end), Lower(d);
        }
        p := p + 2;
        if d >= start && d <= end {
          found := true;
        }
      } else {
        if !nocase {
          if pat[p] == c {
            found := true;
          }
        } else {
          if Lower(pat[p]) == Lower(c) {
            found := true;
          }
        }
      }
      p := p + 1;
    }
  }

  lemma NoItem(nocase: bool, c: symbol)
    ensures !SomeItem(nocase, [], c)
  {
  }

  /** The tokens from position `p` on accept the text from position `s` on. */
  ghost predicate Rest(nocase: bool, pat: seq<symbol>, p: nat, str: seq<symbol>, s: nat)
    requires p <= |pat| && s <= |str|
  {
    InLanguage(nocase, Tokens(pat[p..]), str[s..])
  }

  /** What the matcher answers: the language, except that the empty text only matches the empty pattern. */
  ghost predicate Verdict(nocase: bool, pat: seq<symbol>, p: nat, str: seq<symbol>, s: nat)
    requires p <= |pat| && s <= |str|
  {
    if s == |str| then p == |pat| else Rest(nocase, pat, p, str, s)
  }

  lemma AtEnd(nocase: bool, pat: seq<symbol>, str: seq<symbol>, s: nat)
    requires s <= |str|
    ensures Rest(nocase, pat, |pat|, str, s) <==> s == |str|
  {
    NoTokens(nocase, str[s..]);
  }

  /** A star at `p`: it takes nothing, or one character and stays. */
  lemma AtStar(nocase: bool, pat: seq<symbol>, p: nat, str: seq<symbol>, s: nat)
    requires p < |pat| && pat[p] == STAR && s <= |str|
    ensures Rest(nocase, pat, p, str, s) <==> Rest(nocase, pat, p + 1, str, s) || (s < |str| && Rest(nocase, pat, p, str, s + 1))
  {
    hide InLanguage;
    assert pat[p..][1..] == pat[p + 1..];
    StarToken(nocase, Tokens(pat[p + 1..]), str[s..]);
    if s < |str| {
      assert str[s..][1..] == str[s + 1..];
    }
  }

  lemma AtStars(nocase: bool, pat: seq<symbol>, p: nat, str: seq<symbol>, s: nat)
    requires p + 1 < |pat| && pat[p] == STAR && pat[p + 1] == STAR && s <= |str|
    ensures Rest(nocase, pat, p, str, s) <==> Rest(nocase, pat, p + 1, str, s)
  {
    hide InLanguage;
    assert pat[p..][1..] == pat[p + 1..] && pat[p + 1..][1..] == pat[p + 2..];
    StarStar(nocase, Tokens(pat[p + 2..]), str[s..]);
  }

  lemma AtLastStar(nocase: bool, pat: seq<symbol>, str: seq<symbol>, s: nat)
    requires pat != [] && pat[|pat| - 1] == STAR && s <= |str|
    ensures Rest(nocase, pat, |pat| - 1, str, s)
  {
    hide InLanguage;
    var p := |pat| - 1;
    assert pat[p..][1..] == [];
    assert Tokens(pat[p..]) == [Star];
    StarAlone(nocase, str[s..]);
  }

  /** Any other token at `p`, ending before `q`, takes one character. */
  lemma AtOther(nocase: bool, pat: seq<symbol>, p: nat, q: nat, t: Token, str: seq<symbol>, s: nat)
    requires p < q <= |pat| && s <= |str| && !t.Star?
    requires Tokens(pat[p..]) == [t] + Tokens(pat[q..])
    ensures Rest(nocase, pat, p, str, s) <==> s < |str| && Accepts(nocase, t, str[s]) && Rest(nocase, pat, q, str, s + 1)
  {
    hide InLanguage, Tokens, Accepts;
    OneToken(nocase, t, Tokens(pat[q..]), str[s..]);
    if s < |str| {
      assert str[s..][1..] == str[s + 1..];
    }
  }

  /** Where the token at `p` ends and what it is. */
  lemma TokenAt(pat: seq<symbol>, p: nat)
    requires p < |pat| && pat[p] != STAR && pat[p] != OPEN
    ensures var escaped := pat[p] == BACKSLASH && |pat| - p >= 2;
            var q := if escaped then p + 2 else p + 1;
            var t := if pat[p] == QUESTION then Any else Lit(if escaped then pat[p + 1] else pat[p]);
            q <= |pat| && Tokens(pat[p..]) == [t] + Tokens(pat[q..])
  {
    assert pat[p..][1..] == pat[p + 1..];
    if |pat| - p >= 2 {
      assert pat[p..][2..] == pat[p + 2..];
    }
  }

  lemma ClassAt(pat: seq<symbol>, p: nat, q: nat)
    requires p < |pat| && pat[p] == OPEN
    requires var from := if At(pat, p + 1) == CARET then p + 2 else p + 1;
             q <= |pat| && pat[q..] == RestFrom(pat, from)
    ensures var negated := At(pat, p + 1) == CARET;
            var from := if negated then p + 2 else p + 1;
            Tokens(pat[p..]) == [Class(negated, ClassItems(pat[from..]).0)] + Tokens(pat[q..])
  {
    var body := pat[p..][1..];
    assert body == pat[p + 1..];
    if At(pat, p + 1) == CARET {
      assert body[1..] == pat[p + 2..];
    }
  }

  /** No text is left: only stars may remain. */
  lemma {:induction false} OnlyStars(nocase: bool, pat: seq<symbol>, p: nat, str: seq<symbol>)
    requires p <= |pat|
    ensures p < |pat| && pat[p] == STAR ==> (Rest(nocase, pat, p, str, |str|) <==> Rest(nocase, pat, p + 1, str, |str|))
    ensures p < |pat| && pat[p] != STAR ==> !Rest(nocase, pat, p, str, |str|)
  {
    hide Rest;
    if p < |pat| {
      if pat[p] == STAR {
        AtStar(nocase, pat, p, str, |str|);
      } else {
        NeedsText(nocase, pat, p, str);
      }
    }
  }

  lemma NeedsText(nocase: bool, pat: seq<symbol>, p: nat, str: seq<symbol>)
    requires p < |pat| && pat[p] != STAR
    ensures !Rest(nocase, pat, p, str, |str|)
  {
    hide InLanguage;
    var ts := Tokens(pat[p..]);
    assert ts != [] && !ts[0].Star?;
    assert ts == [ts[0]] + ts[1..];
    OneToken(nocase, ts[0], ts[1..], str[|str|..]);
  }

  /** The star case: collapse a run of stars, then try what follows at every position. */
  method MatchStar(nocase: bool, pat: seq<symbol>, from: nat, str: seq<symbol>, s0: nat) returns (b: bool)
    requires from < |pat| && pat[from] == STAR && s0 < |str|
    ensures b <==> Rest(nocase, pat, from, str, s0)
    decreases |pat| - from, 0
  {
    hide Rest;
    var p := from;
    while At(pat, p + 1) == STAR
      invariant from <= p < |pat| && pat[p] == STAR
      invariant Rest(nocase, pat, from, str, s0) <==> Rest(nocase, pat, p, str, s0)
      decreases |pat| - p
    {
      AtStars(nocase, pat, p, str, s0);
      p := p + 1;
    }
    if |pat| - p == 1 {
      AtLastStar(nocase, pat, str, s0);
      return true;
    }
    var s := s0;
    while s < |str|
      invariant s0 <= s <= |str|
      invariant Rest(nocase, pat, from, str, s0) <==> Rest(nocase, pat, p, str, s)
    {
      AtStar(nocase, pat, p, str, s);
      var rest := StringMatchLen(nocase, pat, p + 1, str, s);
      if rest {
        return true;
      }
      s := s + 1;
    }
    OnlyStars(nocase, pat, p, str);
    OnlyStars(nocase, pat, p + 1, str);
    return false;
  }

  /** string_match_len from positions `p0` and `s0`: it ends, and for a text that is not empty it answers
      whether the text is in the language of the pattern. */
  method StringMatchLen(nocase: bool, pat: seq<symbol>, p0: nat, str: seq<symbol>, s0: nat) returns (b: bool)
    requires p0 <= |pat| && s0 <= |str|
    ensures b <==> Verdict(nocase, pat, p0, str, s0)
    decreases |pat| - p0, 1
  {
    hide Rest, Accepts, RestFrom, HoldsFrom;
    var p, s := p0, s0;
    while p < |pat| && s < |str|
      invariant p0 <= p <= |pat| && s0 <= s <= |str|
      invariant s == |str| ==> p == p0 && s == s0
      invariant Verdict(nocase, pat, p0, str, s0) <==> Verdict(nocase, pat, p, str, s)
      decreases |pat| - p
    {
      ghost var q := p;
      if pat[p] == STAR {
        b := MatchStar(nocase, pat, p, str, s);
        return;
      } else if pat[p] == OPEN {
        var negated := At(pat, p + 1) == CARET;
        var from := if negated then p + 2 else p + 1;
        var found;
        found, p := MatchClass(nocase, pat, from, str[s]);
        ClassToken(nocase, pat, q, p + 1, str, s);
        if negated {
          found := !found;
        }
        if !found {
          return false;
        }
      } else {
        TokenAt(pat, p);
        OtherToken(nocase, pat, p, str, s);
        if pat[p] != QUESTION {
          if pat[p] == BACKSLASH && |pat| - p >= 2 {
            p := p + 1;
          }
          if !nocase {
            if pat[p] != str[s] {
              return false;
            }
          } else {
            if Lower(pat[p]) != Lower(str[s]) {
              return false;
            }
          }
        }
      }
      s := s + 1;
      p := p + 1;
      if s == |str| {
        while At(pat, p) == STAR
          invariant q < p <= |pat|
          invariant Verdict(nocase, pat, p0, str, s0) <==> Rest(nocase, pat, p, str, s)
          decreases |pat| - p
        {
          OnlyStars(nocase, pat, p, str);
          p := p + 1;
        }
        OnlyStars(nocase, pat, p, str);
        AtEnd(nocase, pat, str, s);
        break;
      }
    }
    if s < |str| {
      AtEnd(nocase, pat, str, s);
    }
    b := p == |pat| && s == |str|;
  }

  lemma ClassToken(nocase: bool, pat: seq<symbol>, p: nat, q: nat, str: seq<symbol>, s: nat)
    requires p < |pat| && pat[p] == OPEN && s < |str|
    requires var from := if At(pat, p + 1) == CARET then p + 2 else p + 1;
             p < q <= |pat| && pat[q..] == RestFrom(pat, from)
    ensures var negated := At(pat, p + 1) == CARET;
            var from := if negated then p + 2 else p + 1;
            Rest(nocase, pat, p, str, s) <==> HoldsFrom(nocase, pat, from, str[s]) != negated && Rest(nocase, pat, q, str, s + 1)
  {
    hide Rest, RestFrom, Tokens;
    var negated := At(pat, p + 1) == CARET;
    var from := if negated then p + 2 else p + 1;
    ClassAt(pat, p, q);
    AtOther(nocase, pat, p, q, Class(negated, ClassItems(pat[from..]).0), str, s);
  }

  lemma OtherToken(nocase: bool, pat: seq<symbol>, p: nat, str: seq<symbol>, s: nat)
    requires p < |pat| && pat[p] != STAR && pat[p] != OPEN && s < |str|
    ensures var escaped := pat[p] == BACKSLASH && |pat| - p >= 2;
            var q := if escaped then p + 2 else p + 1;
            Rest(nocase, pat, p, str, s) <==>
            (pat[p] == QUESTION || Fold(nocase, if escaped then pat[p + 1] else pat[p]) == Fold(nocase, str[s])) && Rest(nocase, pat, q, str, s + 1)
  {
    hide Rest, Tokens;
    TokenAt(pat, p);
    var escaped := pat[p] == BACKSLASH && |pat| - p >= 2;
    var q := if escaped then p + 2 else p + 1;
    var t := if pat[p] == QUESTION then Any else Lit(if escaped then pat[p + 1] else pat[p]);
    AtOther(nocase, pat, p, q, t, str, s);
  }

  /** The whole pattern against a key, as the KEYS command calls it. */
  method Matches(nocase: bool, pattern: seq<symbol>, key: seq<symbol>) returns (b: bool)
    ensures key != [] ==> (b <==> InLanguage(nocase, Tokens(pattern), key))
    ensures key == [] ==> (b <==> pattern == [])
  {
    assert pattern[0..] == pattern && key[0..] == key;
    b := StringMatchLen(nocase, pattern, 0, key, 0);
  }

  /** For the empty key the matcher and the language part exactly on the non-empty runs of stars. */
  lemma {:induction false} EmptyKey(nocase: bool, pattern: seq<symbol>)
    ensures InLanguage(nocase, Tokens(pattern), []) <==> forall k :: 0 <= k < |pattern| ==> pattern[k] == STAR
    decreases |pattern|
  {
    hide InLanguage;
    if pattern == [] {
      NoTokens(nocase, []);
    } else if pattern[0] == STAR {
      StarToken(nocase, Tokens(pattern[1..]), []);
      EmptyKey(nocase, pattern[1..]);
      assert forall k :: 0 < k < |pattern| ==> pattern[k] == pattern[1..][k - 1];
    } else {
      var ts := Tokens(pattern);
      assert ts == [ts[0]] + ts[1..];
      OneToken(nocase, ts[0], ts[1..], []);
    }
  }
}
