/** Removal of ROUND calls from SQL text by parenthesis scanning (shared/db_utils.py). */
module RoundStripping {
  import opened Text

  /** The five letters, in any case. */
  predicate SpellsRound(u: string)
  {
    && |u| >= 5
    && Lower(u[0]) == 'r' && Lower(u[1]) == 'o' && Lower(u[2]) == 'u' && Lower(u[3]) == 'n' && Lower(u[4]) == 'd'
  }

  /** The pattern at the start of `u`: ROUND in any case, optional spaces, an opening parenthesis. */
  predicate StartsRound(u: string)
  {
    SpellsRound(u) && StripLeft(u[5..]) != "" && StripLeft(u[5..])[0] == '('
  }

  /** What follows the opening parenthesis of a match. */
  function Body(u: string): string
    requires StartsRound(u)
  {
    StripLeft(u[5..])[1..]
  }

  /** The text before the leftmost match, or all of it. */
  function BeforeRound(s: string): string
  {
    if s == "" || StartsRound(s) then "" else [s[0]] + BeforeRound(s[1..])
  }

  /** The text from the leftmost match on; empty when there is none. */
  function FromRound(s: string): (u: string)
    ensures u != "" ==> StartsRound(u)
  {
    if s == "" || StartsRound(s) then s else FromRound(s[1..])
  }

  lemma {:induction false} SplitAtRound(s: string)
    ensures s == BeforeRound(s) + FromRound(s)
  {
    if s != "" && !StartsRound(s) {
      SplitAtRound(s[1..]);
      assert s == [s[0]] + s[1..];
    }
  }

  /** No match starts inside the text before the leftmost match. */
  lemma {:induction false} RoundIsLeftmost(s: string, k: nat)
    requires k < |BeforeRound(s)|
    ensures k < |s| && !StartsRound(s[k..])
  {
    SplitAtRound(s);
    if k == 0 {
      assert s[0..] == s;
    } else {
      RoundIsLeftmost(s[1..], k - 1);
      assert s[1..][k - 1..] == s[k..];
    }
  }

  /** Offset of the parenthesis that brings `depth` down to zero, or -1. */
  function CloseOffset(t: string, depth: int): (c: int)
    ensures -1 <= c < |t|
  {
    if t == "" then -1
    else if t[0] == ')' && depth == 1 then 0
    else
      var rest := CloseOffset(t[1..], if t[0] == '(' then depth + 1 else if t[0] == ')' then depth - 1 else depth);
      if rest < 0 then -1 else rest + 1
  }

  /** Length of the first argument: up to a comma or a closing parenthesis at depth zero. */
  function ArgumentLength(t: string, depth: nat): (n: nat)
    ensures n <= |t|
  {
    if t == "" || (depth == 0 && (t[0] == ')' || t[0] == ',')) then 0
    else 1 + ArgumentLength(t[1..], if t[0] == '(' then depth + 1 else if t[0] == ')' then depth - 1 else depth)
  }

  function StripLeft(s: string): string
  {
    if s != "" && IsSpace(s[0]) then StripLeft(s[1..]) else s
  }

  function StripRight(s: string): string
  {
    if s != "" && IsSpace(s[|s| - 1]) then StripRight(s[..|s| - 1]) else s
  }

  function Strip(s: string): string
  {
    StripRight(StripLeft(s))
  }

  lemma StripLeftShortens(s: string)
    ensures |StripLeft(s)| <= |s|
  {
  }

  lemma StripRightShortens(s: string)
    ensures |StripRight(s)| <= |s|
  {
  }

  lemma StripShortens(s: string)
    ensures |StripLeft(s)| <= |s| && |StripRight(s)| <= |s| && |Strip(s)| <= |s|
  {
    StripLeftShortens(s);
    StripRightShortens(s);
    StripRightShortens(StripLeft(s));
  }

  predicate Rewritable(s: string)
  {
    FromRound(s) != "" && CloseOffset(Body(FromRound(s)), 1) >= 0
  }

  /** The first argument of a call, stripped, followed by what comes after the call. */
  function Unwrap(b: string): string
    requires CloseOffset(b, 1) >= 0
  {
    Strip(b[..ArgumentLength(b, 0)]) + b[CloseOffset(b, 1) + 1..]
  }

  /** One pass: the leftmost call is replaced by its first argument. */
  function Rewrite(s: string): string
    requires Rewritable(s)
  {
    BeforeRound(s) + Unwrap(Body(FromRound(s)))
  }

  /** The end of the first argument never passes the matching parenthesis. */
  lemma {:induction false} ArgumentEndsBeforeClose(t: string, depth: nat)
    requires CloseOffset(t, depth + 1) >= 0
    ensures ArgumentLength(t, depth) <= CloseOffset(t, depth + 1)
  {
    if t[0] == '(' {
      ArgumentEndsBeforeClose(t[1..], depth + 1);
    } else if t[0] == ')' {
      if depth > 0 {
        ArgumentEndsBeforeClose(t[1..], depth - 1);
      }
    } else if !(depth == 0 && t[0] == ',') {
      ArgumentEndsBeforeClose(t[1..], depth);
    }
  }

  lemma UnwrapShortens(b: string)
    requires CloseOffset(b, 1) >= 0
    ensures |Unwrap(b)| < |b|
  {
    ArgumentEndsBeforeClose(b, 0);
    StripShortens(b[..ArgumentLength(b, 0)]);
  }

  lemma BodyShortens(u: string)
    requires StartsRound(u)
    ensures |Body(u)| < |u|
  {
    StripLeftShortens(u[5..]);
  }

  /** Every pass shortens the text, so the loop stops on every input. */
  lemma RewriteShortens(s: string)
    requires Rewritable(s)
    ensures |Rewrite(s)| < |s|
  {
    SplitAtRound(s);
    BodyShortens(FromRound(s));
    UnwrapShortens(Body(FromRound(s)));
  }

  function RemoveRound(s: string): string
    decreases |s|
  {
    if !Rewritable(s) then s
    else
      RewriteShortens(s);
      RemoveRound(Rewrite(s))
  }

  method FindMatchingParen(text: string, start: nat) returns (i: int)
    requires start <= |text|
    ensures i == var c := CloseOffset(text[start..], 0); if c < 0 then -1 else start + c
  {
    var depth := 0;
    for k := start to |text|
      invariant CloseOffset(text[start..], 0)
             == var c := CloseOffset(text[k..], depth); if c < 0 then -1 else k - start + c
    {
      assert text[k..][1..] == text[k + 1..];
      if text[k] == '(' {
        depth := depth + 1;
      } else if text[k] == ')' {
        depth := depth - 1;
        if depth == 0 {
          return k;
        }
      }
    }
    i := -1;
  }

  method FindFirstArgEnd(text: string, start: nat) returns (i: nat)
    requires start <= |text|
    ensures i == start + ArgumentLength(text[start..], 0)
  {
    var depth: nat := 0;
    for k := start to |text|
      invariant start + ArgumentLength(text[start..], 0) == k + ArgumentLength(text[k..], depth)
    {
      assert text[k..][1..] == text[k + 1..];
      if text[k] == '(' {
        depth := depth + 1;
      } else if text[k] == ')' {
        if depth == 0 {
          return k;
        }
        depth := depth - 1;
      } else if text[k] == ',' && depth == 0 {
        return k;
      }
    }
    i := |text|;
  }

  /** The rewriting loop of the source, on positions: `start` and `open` are the ends of the match. */
  method RemoveRoundFunctions(sql: string) returns (result: string)
    ensures result == RemoveRound(sql)
  {
    result := sql;
    while true
      invariant RemoveRound(result) == RemoveRound(sql)
      decreases |result|
    {
      var start := |BeforeRound(result)|;
      if FromRound(result) == "" {
        break;
      }
      BodyPosition(result);
      var open := |result| - |Body(FromRound(result))| - 1;
      var firstEnd := FindFirstArgEnd(result, open + 1);
      var close := FindMatchingParen(result, open);
      CloseAfterOpen(result[open..]);
      if close == -1 {
        break;
      }
      RewriteShortens(result);
      PassBounds(result, start, open, firstEnd, close);
      PassOnIndices(result, start, open, firstEnd, close);
      result := result[..start] + (Strip(result[open + 1..firstEnd]) + result[close + 1..]);
    }
  }

  lemma CloseAfterOpen(t: string)
    requires t != "" && t[0] == '('
    ensures CloseOffset(t, 0) == if CloseOffset(t[1..], 1) < 0 then -1 else CloseOffset(t[1..], 1) + 1
  {
  }

  lemma {:induction false} StripLeftIsSuffix(s: string)
    ensures |StripLeft(s)| <= |s| && StripLeft(s) == s[|s| - |StripLeft(s)|..]
  {
    if s != "" && IsSpace(s[0]) {
      StripLeftIsSuffix(s[1..]);
    }
  }

  /** The body of the leftmost match is the text after a parenthesis. */
  lemma BodyPosition(s: string)
    requires FromRound(s) != ""
    ensures var b := Body(FromRound(s));
            && |b| < |s| && s[|s| - |b| - 1] == '('
            && s[|s| - |b|..] == b && s[|s| - |b| - 1..][1..] == b
  {
    SplitAtRound(s);
    SuffixOfSuffix(s, BeforeRound(s), FromRound(s));
  }

  lemma SuffixOfSuffix(s: string, pre: string, u: string)
    requires s == pre + u && StartsRound(u)
    ensures var b := Body(u);
            && |b| < |s| && s[|s| - |b| - 1] == '('
            && s[|s| - |b|..] == b && s[|s| - |b| - 1..][1..] == b
  {
    var v := StripLeft(u[5..]);
    StripLeftIsSuffix(u[5..]);
    assert v == s[|s| - |v|..];
    assert s[|s| - |v|] == v[0];
    assert v[1..] == s[|s| - |v| + 1..];
  }

  lemma PassBounds(s: string, start: nat, open: nat, firstEnd: nat, close: nat)
    requires Rewritable(s) && start == |BeforeRound(s)|
    requires open == |s| - |Body(FromRound(s))| - 1
    requires firstEnd == open + 1 + ArgumentLength(Body(FromRound(s)), 0)
    requires close == open + 1 + CloseOffset(Body(FromRound(s)), 1)
    ensures start <= |s| && open + 1 <= firstEnd <= close < |s|
  {
    SplitAtRound(s);
    ArgumentEndsBeforeClose(Body(FromRound(s)), 0);
  }

  lemma PassOnIndices(s: string, start: nat, open: nat, firstEnd: nat, close: nat)
    requires Rewritable(s) && start == |BeforeRound(s)|
    requires open == |s| - |Body(FromRound(s))| - 1
    requires firstEnd == open + 1 + ArgumentLength(Body(FromRound(s)), 0)
    requires close == open + 1 + CloseOffset(Body(FromRound(s)), 1)
    requires start <= |s| && open + 1 <= firstEnd <= close < |s|
    ensures Rewrite(s) == s[..start] + (Strip(s[open + 1..firstEnd]) + s[close + 1..])
  {
    var pre, u := BeforeRound(s), FromRound(s);
    var b := Body(u);
    SplitAtRound(s);
    BodyPosition(s);
    var n, c := ArgumentLength(b, 0), CloseOffset(b, 1);
    PassOnSuffix(s, pre, u, b, open, firstEnd, close, n, c);
    RewriteIs(s, pre, b, n, c);
  }

  lemma RewriteIs(s: string, pre: string, b: string, n: nat, c: nat)
    requires Rewritable(s) && pre == BeforeRound(s) && b == Body(FromRound(s))
    requires n == ArgumentLength(b, 0) && c == CloseOffset(b, 1) && n <= c < |b|
    ensures Rewrite(s) == pre + (Strip(b[..n]) + b[c + 1..])
  {
  }

  lemma PassOnSuffix(s: string, pre: string, u: string, b: string, open: nat, firstEnd: nat, close: nat, n: nat, c: nat)
    requires s == pre + u && open + 1 == |s| - |b| && s[|s| - |b|..] == b
    requires firstEnd == open + 1 + n && close == open + 1 + c && n <= c < |b|
    ensures s[..|pre|] == pre
    ensures s[open + 1..firstEnd] == b[..n]
    ensures s[close + 1..] == b[c + 1..]
  {
    SliceOfSuffix(s, b, 0, n);
    SliceOfSuffix(s, b, c + 1, |b|);
  }

  lemma SliceOfSuffix(s: string, b: string, m: nat, n: nat)
    requires |b| <= |s| && s[|s| - |b|..] == b && m <= n <= |b|
    ensures s[|s| - |b| + m..|s| - |b| + n] == b[m..n]
  {
    var i := |s| - |b|;
    assert forall k :: m <= k < n ==> s[i..][k] == s[i + k];
  }

  // ----- balanced parentheses

  datatype Depth = Below | At(depth: nat)

  /** Nesting depth after reading `s` from depth `d`; `Below` once a parenthesis closes nothing. */
  function Walk(s: string, d: Depth): Depth
  {
    if d.Below? || s == "" then d
    else Walk(s[1..],
              if s[0] == '(' then At(d.depth + 1)
              else if s[0] == ')' then (if d.depth == 0 then Below else At(d.depth - 1))
              else d)
  }

  predicate Balanced(s: string)
  {
    Walk(s, At(0)) == At(0)
  }

  lemma {:induction false} WalkAppend(a: string, b: string, d: Depth)
    ensures Walk(a + b, d) == Walk(b, Walk(a, d))
    decreases |a|
  {
    if a == "" {
      assert a + b == b;
    } else if d.At? {
      assert (a + b)[1..] == a[1..] + b;
      var next := if a[0] == '(' then At(d.depth + 1)
                  else if a[0] == ')' then (if d.depth == 0 then Below else At(d.depth - 1)) else d;
      WalkAppend(a[1..], b, next);
    }
  }

  /** The text before the matching parenthesis returns to the depth right after the opening one. */
  lemma {:induction false} WalkToClose(t: string, depth: nat, base: nat)
    requires CloseOffset(t, depth + 1) >= 0
    ensures Walk(t[..CloseOffset(t, depth + 1)], At(base + depth)) == At(base)
  {
    var c := CloseOffset(t, depth + 1);
    if c > 0 {
      assert t[..c][1..] == t[1..][..c - 1];
      if t[0] == '(' {
        WalkToClose(t[1..], depth + 1, base);
      } else if t[0] == ')' {
        WalkToClose(t[1..], depth - 1, base);
      } else {
        WalkToClose(t[1..], depth, base);
      }
    }
  }

  lemma {:induction false} WalkArgument(t: string, depth: nat, base: nat)
    requires CloseOffset(t, depth + 1) >= 0
    ensures Walk(t[..ArgumentLength(t, depth)], At(base + depth)) == At(base)
  {
    var n := ArgumentLength(t, depth);
    if n > 0 {
      assert t[..n][1..] == t[1..][..n - 1];
      if t[0] == '(' {
        WalkArgument(t[1..], depth + 1, base);
      } else if t[0] == ')' {
        WalkArgument(t[1..], depth - 1, base);
      } else {
        WalkArgument(t[1..], depth, base);
      }
    }
  }

  lemma {:induction false} WalkStripLeft(s: string, d: Depth)
    ensures Walk(StripLeft(s), d) == Walk(s, d)
  {
    if s != "" && IsSpace(s[0]) {
      WalkStripLeft(s[1..], d);
    }
  }

  lemma {:induction false} WalkStripRight(s: string, d: Depth)
    ensures Walk(StripRight(s), d) == Walk(s, d)
    decreases |s|
  {
    if s != "" && IsSpace(s[|s| - 1]) {
      var last := s[|s| - 1];
      assert s == s[..|s| - 1] + [last];
      WalkAppend(s[..|s| - 1], [last], d);
      WalkStripRight(s[..|s| - 1], d);
    }
  }

  /** With no matching parenthesis the depth never comes back down. */
  lemma {:induction false} NoCloseStaysDeep(t: string, depth: nat, base: nat)
    requires CloseOffset(t, depth + 1) < 0
    ensures Walk(t, At(base + depth + 1)).At? ==> Walk(t, At(base + depth + 1)).depth > base
  {
    if t != "" {
      if t[0] == '(' {
        NoCloseStaysDeep(t[1..], depth + 1, base);
      } else if t[0] == ')' {
        NoCloseStaysDeep(t[1..], depth - 1, base);
      } else {
        NoCloseStaysDeep(t[1..], depth, base);
      }
    }
  }

  /** The head of a match raises the depth by one. */
  lemma WalkHead(u: string, base: nat)
    requires StartsRound(u)
    ensures Walk(u, At(base)) == Walk(Body(u), At(base + 1))
  {
    WalkSpelling(u, At(base));
    WalkStripLeft(u[5..], At(base));
  }

  lemma WalkSpelling(u: string, d: Depth)
    requires SpellsRound(u) && d.At?
    ensures Walk(u, d) == Walk(u[5..], d)
  {
    var u1, u2, u3, u4 := u[1..], u[1..][1..], u[1..][1..][1..], u[1..][1..][1..][1..];
    assert u4[1..] == u[5..];
    assert Walk(u, d) == Walk(u1, d);
    assert Walk(u1, d) == Walk(u2, d);
    assert Walk(u2, d) == Walk(u3, d);
    assert Walk(u3, d) == Walk(u4, d);
  }

  /** A closed body is its content at the inner depth, the parenthesis, and the rest. */
  lemma WalkBody(b: string, base: nat)
    requires CloseOffset(b, 1) >= 0
    ensures Walk(b, At(base + 1)) == Walk(b[CloseOffset(b, 1) + 1..], At(base))
  {
    var c := CloseOffset(b, 1);
    CloseIsParen(b, 1);
    SplitAround(b, c);
    WalkToClose(b, 0, base + 1);
    WalkClosed(b[..c], b[c + 1..], base);
  }

  lemma SplitAround(s: string, k: nat)
    requires k < |s|
    ensures s == s[..k] + ([s[k]] + s[k + 1..])
  {
  }

  lemma WalkClosed(inner: string, rest: string, base: nat)
    requires Walk(inner, At(base + 1)) == At(base + 1)
    ensures Walk(inner + (")" + rest), At(base + 1)) == Walk(rest, At(base))
  {
    WalkAppend(inner, ")" + rest, At(base + 1));
    assert (")" + rest)[1..] == rest;
  }

  lemma WalkStrippedArgument(b: string, base: nat)
    requires CloseOffset(b, 1) >= 0
    ensures Walk(Strip(b[..ArgumentLength(b, 0)]), At(base)) == At(base)
  {
    var a := b[..ArgumentLength(b, 0)];
    WalkArgument(b, 0, base);
    WalkStripLeft(a, At(base));
    WalkStripRight(StripLeft(a), At(base));
  }

  /** On balanced text no match is ever stuck, and one pass keeps the text balanced. */
  lemma BalancedPass(s: string)
    requires Balanced(s) && FromRound(s) != ""
    ensures Rewritable(s) && Balanced(Rewrite(s))
  {
    var pre, u := BeforeRound(s), FromRound(s);
    var b := Body(u);
    SplitAtRound(s);
    WalkAppend(pre, u, At(0));
    var base := Walk(pre, At(0)).depth;
    WalkHead(u, base);
    if CloseOffset(b, 1) < 0 {
      NoCloseStaysDeep(b, 0, base);
      assert false;
    }
    WalkBody(b, base);
    WalkStrippedArgument(b, base);
    WalkAppend(Strip(b[..ArgumentLength(b, 0)]), b[CloseOffset(b, 1) + 1..], At(base));
    WalkAppend(pre, Unwrap(b), At(0));
  }

  lemma {:induction false} CloseIsParen(t: string, depth: int)
    requires CloseOffset(t, depth) >= 0
    ensures t[CloseOffset(t, depth)] == ')'
  {
    if !(t[0] == ')' && depth == 1) {
      CloseIsParen(t[1..], if t[0] == '(' then depth + 1 else if t[0] == ')' then depth - 1 else depth);
    }
  }

  /** Balanced text stays balanced and loses every ROUND call. */
  lemma {:induction false} BalancedTextIsCleaned(s: string)
    requires Balanced(s)
    ensures Balanced(RemoveRound(s)) && FromRound(RemoveRound(s)) == ""
    decreases |s|
  {
    if FromRound(s) != "" {
      BalancedPass(s);
      RewriteShortens(s);
      BalancedTextIsCleaned(Rewrite(s));
    }
  }
}
