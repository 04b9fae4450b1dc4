/** What ROUND removal means: on text printed from a tree of calls and arguments, it computes the tree in which
    every ROUND call is replaced by its first argument. */
module RoundTrees {
  import opened Text
  import opened RoundStripping

  /** SQL text as words, other characters, and parenthesised argument lists with an optional name before them. */
  datatype Tree = Nil | Cons(head: Item, tail: Tree)
  datatype Item = Mark(c: char) | Word(w: string) | Call(name: string, gap: string, args: Args)
  datatype Args = Last(arg: Tree) | More(arg: Tree, rest: Args)

  function Print(t: Tree): string
  {
    match t
    case Nil => ""
    case Cons(h, tail) => PrintItem(h) + Print(tail)
  }

  function PrintItem(h: Item): string
  {
    match h
    case Mark(c) => [c]
    case Word(w) => w
    case Call(name, gap, args) => name + (gap + ("(" + (PrintArgs(args) + ")")))
  }

  function PrintArgs(a: Args): string
  {
    match a
    case Last(t) => Print(t)
    case More(t, rest) => Print(t) + ("," + PrintArgs(rest))
  }

  predicate AllWordChars(s: string)
  {
    forall k :: 0 <= k < |s| ==> IsWordChar(s[k])
  }

  predicate IsRound(name: string)
  {
    |name| == 5 && SpellsRound(name)
  }

  predicate EndsInRound(w: string)
  {
    |w| >= 5 && SpellsRound(w[|w| - 5..])
  }

  /** What must be followed by a mark: a word, so that it is maximal, and a ROUND call, whose argument would otherwise
      run into the next word. */
  predicate EndsAtMark(h: Item)
  {
    h.Word? || (h.Call? && IsRound(h.name))
  }

  /** Words are maximal, no word ends in ROUND, the only called name that does is ROUND itself, and a ROUND call is
      separated from what follows. Other calls may be followed by anything. */
  predicate WellFormed(t: Tree)
  {
    match t
    case Nil => true
    case Cons(h, tail) => WellFormedItem(h) && WellFormed(tail) && (EndsAtMark(h) ==> tail.Nil? || tail.head.Mark?)
  }

  predicate WellFormedItem(h: Item)
  {
    match h
    case Mark(c) => !IsWordChar(c) && c != '(' && c != ')' && c != ','
    case Word(w) => w != "" && AllWordChars(w) && !EndsInRound(w)
    case Call(name, gap, args) =>
      && AllWordChars(name) && IsBlank(gap) && (name == "" ==> gap == "")
      && (EndsInRound(name) ==> |name| == 5)
      && WellFormedArgs(args)
  }

  predicate WellFormedArgs(a: Args)
  {
    WellFormed(a.arg) && (a.More? ==> WellFormedArgs(a.rest))
  }

  predicate HasRound(t: Tree)
  {
    t.Cons? && (ItemHasRound(t.head) || HasRound(t.tail))
  }

  predicate ItemHasRound(h: Item)
  {
    h.Call? && (IsRound(h.name) || ArgsHaveRound(h.args))
  }

  predicate ArgsHaveRound(a: Args)
  {
    HasRound(a.arg) || (a.More? && ArgsHaveRound(a.rest))
  }

  function Append(a: Tree, b: Tree): Tree
  {
    match a
    case Nil => b
    case Cons(h, t) => Cons(h, Append(t, b))
  }

  /** The tree with every ROUND call replaced by its first argument. */
  function Erase(t: Tree): Tree
  {
    match t
    case Nil => Nil
    case Cons(Call(name, gap, args), tail) =>
      if IsRound(name) then Append(Erase(args.arg), Erase(tail))
      else Cons(Call(name, gap, EraseArgs(args)), Erase(tail))
    case Cons(h, tail) => Cons(h, Erase(tail))
  }

  function EraseArgs(a: Args): Args
  {
    match a
    case Last(t) => Last(Erase(t))
    case More(t, rest) => More(Erase(t), EraseArgs(rest))
  }

  /** The text without its spaces. */
  function NoSpaces(s: string): string
  {
    if s == "" then "" else (if IsSpace(s[0]) then "" else [s[0]]) + NoSpaces(s[1..])
  }

  // ----- trimming

  predicate IsSpaceItem(h: Item)
  {
    h.Mark? && IsSpace(h.c)
  }

  function TrimLeft(t: Tree): Tree
  {
    if t.Cons? && IsSpaceItem(t.head) then TrimLeft(t.tail) else t
  }

  function TrimRight(t: Tree): Tree
  {
    if t.Nil? then Nil
    else
      var rest := TrimRight(t.tail);
      if rest.Nil? && IsSpaceItem(t.head) then Nil else Cons(t.head, rest)
  }

  /** One pass on the tree: the first ROUND call, in reading order, is replaced by its trimmed first argument. */
  function Pass(t: Tree): Tree
    requires HasRound(t)
  {
    if ItemHasRound(t.head) then
      if IsRound(t.head.name) then Append(TrimRight(TrimLeft(t.head.args.arg)), t.tail)
      else Cons(Call(t.head.name, t.head.gap, PassArgs(t.head.args)), t.tail)
    else Cons(t.head, Pass(t.tail))
  }

  function PassArgs(a: Args): Args
    requires ArgsHaveRound(a)
  {
    if HasRound(a.arg) then (if a.Last? then Last(Pass(a.arg)) else More(Pass(a.arg), a.rest))
    else More(a.arg, PassArgs(a.rest))
  }

  // ----- where matches can start

  /** `a` holds no start of a match when it is followed by `q`. */
  ghost predicate Skipped(a: string, q: string)
  {
    BeforeRound(a + q) == a + BeforeRound(q) && FromRound(a + q) == FromRound(q)
  }

  lemma SkipNothing(q: string)
    ensures Skipped("", q)
  {
    assert "" + q == q;
    assert "" + BeforeRound(q) == BeforeRound(q);
  }

  lemma SkipOne(c: char, q: string)
    requires !StartsRound([c] + q)
    ensures Skipped([c], q)
  {
    assert ([c] + q)[1..] == q;
  }

  lemma SkipBoth(a: string, b: string, q: string)
    requires Skipped(a, b + q) && Skipped(b, q)
    ensures Skipped(a + b, q)
  {
    assert (a + b) + q == a + (b + q);
    assert (a + b) + BeforeRound(q) == a + (b + BeforeRound(q));
  }

  predicate StopsWord(q: string)
  {
    q == "" || !IsWordChar(q[0])
  }

  lemma {:induction false} SkipWord(w: string, q: string)
    requires AllWordChars(w) && StopsWord(q)
    requires EndsInRound(w) ==> StripLeft(q) == "" || StripLeft(q)[0] != '('
    ensures Skipped(w, q)
  {
    if w == "" {
      SkipNothing(q);
    } else {
      var rest := w[1..];
      assert w == [w[0]] + rest;
      assert EndsInRound(rest) ==> EndsInRound(w) by {
        if EndsInRound(rest) {
          assert rest[|rest| - 5..] == w[|w| - 5..];
        }
      }
      SkipWord(rest, q);
      WordIsNoMatch(w, q);
      assert [w[0]] + (rest + q) == w + q;
      SkipOne(w[0], rest + q);
      SkipBoth([w[0]], rest, q);
    }
  }

  lemma WordIsNoMatch(w: string, q: string)
    requires w != "" && AllWordChars(w) && StopsWord(q)
    requires EndsInRound(w) ==> StripLeft(q) == "" || StripLeft(q)[0] != '('
    ensures !StartsRound(w + q)
  {
    var u := w + q;
    if SpellsRound(u) {
      if |w| < 5 {
        assert u[|w|] == q[0];
        LetterIsWordChar(u[|w|]);
        assert false;
      } else if |w| > 5 {
        assert u[5..][0] == w[5];
        WordCharStays(u[5..]);
      } else {
        assert u[5..] == q && w[0..] == w;
        assert SpellsRound(w);
      }
    }
  }

  lemma LetterIsWordChar(c: char)
    requires Lower(c) in {'r', 'o', 'u', 'n', 'd'}
    ensures IsWordChar(c)
  {
  }

  lemma WordCharStays(v: string)
    requires v != "" && IsWordChar(v[0])
    ensures StripLeft(v) == v && v[0] != '('
  {
  }

  lemma MarkIsNoMatch(c: char, q: string)
    requires !IsWordChar(c)
    ensures !StartsRound([c] + q)
  {
    if SpellsRound([c] + q) {
      LetterIsWordChar(([c] + q)[0]);
    }
  }

  lemma SpaceIsNoWordChar(c: char)
    requires IsSpace(c)
    ensures !IsWordChar(c)
  {
  }

  lemma {:induction false} SkipGap(gap: string, q: string)
    requires IsBlank(gap)
    ensures Skipped(gap, q)
  {
    if gap == "" {
      SkipNothing(q);
    } else {
      var rest := gap[1..];
      assert gap == [gap[0]] + rest;
      assert forall k :: 0 <= k < |rest| ==> rest[k] == gap[k + 1];
      SkipGap(rest, q);
      SpaceIsNoWordChar(gap[0]);
      MarkIsNoMatch(gap[0], rest + q);
      SkipOne(gap[0], rest + q);
      SkipBoth([gap[0]], rest, q);
    }
  }

  lemma {:induction false} StripGap(gap: string, q: string)
    requires IsBlank(gap)
    ensures StripLeft(gap + q) == StripLeft(q)
  {
    if gap == "" {
      assert gap + q == q;
    } else {
      assert (gap + q)[1..] == gap[1..] + q;
      assert forall k :: 0 <= k < |gap[1..]| ==> gap[1..][k] == gap[k + 1];
      StripGap(gap[1..], q);
    }
  }

  /** The name, the gap and the parenthesis of a call that is not ROUND start no match. */
  lemma SkipHead(name: string, gap: string, q: string)
    requires AllWordChars(name) && IsBlank(gap) && !EndsInRound(name) && (name == "" ==> gap == "")
    ensures Skipped(name + (gap + "("), q)
  {
    MarkIsNoMatch('(', q);
    SkipOne('(', q);
    SkipGap(gap, "(" + q);
    SkipBoth(gap, "(", q);
    var after := (gap + "(") + q;
    assert after[0] == if gap == "" then '(' else gap[0];
    if gap != "" {
      SpaceIsNoWordChar(gap[0]);
    }
    SkipWord(name, after);
    SkipBoth(name, gap + "(", q);
  }

  /** A tree without ROUND calls starts no match, whatever stops its last word. */
  lemma {:induction false} SkipTree(t: Tree, q: string)
    requires WellFormed(t) && !HasRound(t) && StopsWord(q)
    ensures Skipped(Print(t), q)
    decreases t, 1
  {
    if t.Nil? {
      SkipNothing(q);
    } else {
      SkipTree(t.tail, q);
      SkipItem(t.head, Print(t.tail) + q) by {
        if t.head.Word? {
          TailStopsWord(t, q);
        }
      }
      SkipBoth(PrintItem(t.head), Print(t.tail), q);
    }
  }

  /** After a word comes a mark, or the end. */
  lemma TailStopsWord(t: Tree, q: string)
    requires WellFormed(t) && t.Cons? && t.head.Word? && StopsWord(q)
    ensures StopsWord(Print(t.tail) + q)
  {
    if t.tail.Nil? {
      assert Print(t.tail) + q == q;
    } else {
      assert WellFormed(t.tail) && WellFormedItem(t.tail.head);
      assert PrintItem(t.tail.head) == [t.tail.head.c];
      assert (Print(t.tail) + q)[0] == t.tail.head.c;
    }
  }

  lemma {:induction false} SkipItem(h: Item, q: string)
    requires WellFormedItem(h) && !ItemHasRound(h) && (h.Word? ==> StopsWord(q))
    ensures Skipped(PrintItem(h), q)
    decreases h, 0
  {
    match h
    case Mark(c) =>
      MarkIsNoMatch(c, q);
      SkipOne(c, q);
    case Word(w) =>
      SkipWord(w, q);
    case Call(name, gap, args) =>
      CallHeadIsPlain(name);
      var inner := PrintArgs(args);
      MarkIsNoMatch(')', q);
      SkipOne(')', q);
      SkipArgs(args, ")" + q);
      SkipBoth(inner, ")", q);
      SkipHead(name, gap, (inner + ")") + q);
      SkipBoth(name + (gap + "("), inner + ")", q);
      PrintCall(h);
  }

  lemma CallHeadIsPlain(name: string)
    requires !IsRound(name) && (EndsInRound(name) ==> |name| == 5)
    ensures !EndsInRound(name)
  {
    assert name[0..] == name;
  }

  lemma PrintCall(h: Item)
    requires h.Call?
    ensures PrintItem(h) == (h.name + (h.gap + "(")) + (PrintArgs(h.args) + ")")
  {
    var x := PrintArgs(h.args) + ")";
    assert PrintItem(h) == h.name + (h.gap + ("(" + x));
    assert h.gap + ("(" + x) == (h.gap + "(") + x;
    assert h.name + ((h.gap + "(") + x) == (h.name + (h.gap + "(")) + x;
  }

  lemma {:induction false} SkipArgs(a: Args, q: string)
    requires WellFormedArgs(a) && !ArgsHaveRound(a) && StopsWord(q)
    ensures Skipped(PrintArgs(a), q)
    decreases a, 0
  {
    match a
    case Last(t) => SkipTree(t, q);
    case More(t, rest) =>
      SkipArgs(rest, q);
      MarkIsNoMatch(',', PrintArgs(rest) + q);
      SkipOne(',', PrintArgs(rest) + q);
      SkipBoth(",", PrintArgs(rest), q);
      SkipTree(t, ("," + PrintArgs(rest)) + q);
      SkipBoth(Print(t), "," + PrintArgs(rest), q);
  }

  // ----- the scanners on printed text

  function Shift(n: nat, c: int): int
  {
    if c < 0 then -1 else n + c
  }

  predicate NoParens(a: string)
  {
    forall k :: 0 <= k < |a| ==> a[k] != '(' && a[k] != ')'
  }

  lemma {:induction false} ClosePlain(a: string, u: string, d: int)
    requires NoParens(a)
    ensures CloseOffset(a + u, d) == Shift(|a|, CloseOffset(u, d))
  {
    if a == "" {
      assert a + u == u;
    } else {
      assert (a + u)[1..] == a[1..] + u;
      assert forall k :: 0 <= k < |a[1..]| ==> a[1..][k] == a[k + 1];
      ClosePlain(a[1..], u, d);
    }
  }

  lemma {:induction false} ArgumentPlain(a: string, u: string, d: nat)
    requires NoParens(a) && (d == 0 ==> ',' !in a)
    ensures ArgumentLength(a + u, d) == |a| + ArgumentLength(u, d)
  {
    if a == "" {
      assert a + u == u;
    } else {
      assert (a + u)[1..] == a[1..] + u;
      assert forall k :: 0 <= k < |a[1..]| ==> a[1..][k] == a[k + 1];
      ArgumentPlain(a[1..], u, d);
    }
  }

  lemma WordIsPlain(w: string)
    requires AllWordChars(w)
    ensures NoParens(w) && ',' !in w
  {
  }

  lemma GapIsPlain(w: string)
    requires IsBlank(w)
    ensures NoParens(w) && ',' !in w
  {
  }

  lemma {:induction false} CloseTree(t: Tree, u: string, d: nat)
    requires WellFormed(t) && d > 0
    ensures CloseOffset(Print(t) + u, d) == Shift(|Print(t)|, CloseOffset(u, d))
    decreases t, 1
  {
    if t.Nil? {
      assert Print(t) + u == u;
    } else {
      var rest := Print(t.tail) + u;
      assert Print(t) + u == PrintItem(t.head) + rest;
      CloseItem(t.head, rest, d);
      CloseTree(t.tail, u, d);
    }
  }

  lemma {:induction false} CloseItem(h: Item, u: string, d: nat)
    requires WellFormedItem(h) && d > 0
    ensures CloseOffset(PrintItem(h) + u, d) == Shift(|PrintItem(h)|, CloseOffset(u, d))
    decreases h, 0
  {
    match h
    case Mark(c) => ClosePlain([c], u, d);
    case Word(w) =>
      WordIsPlain(w);
      ClosePlain(w, u, d);
    case Call(name, gap, args) =>
      var tail := ")" + u;
      var inner := PrintArgs(args) + tail;
      assert PrintItem(h) + u == name + (gap + ("(" + inner));
      WordIsPlain(name);
      GapIsPlain(gap);
      ClosePlain(name, gap + ("(" + inner), d);
      ClosePlain(gap, "(" + inner, d);
      assert ("(" + inner)[1..] == inner && tail[1..] == u;
      CloseArgs(args, tail, d + 1);
  }

  lemma {:induction false} CloseArgs(a: Args, u: string, d: nat)
    requires WellFormedArgs(a) && d > 0
    ensures CloseOffset(PrintArgs(a) + u, d) == Shift(|PrintArgs(a)|, CloseOffset(u, d))
    decreases a, 0
  {
    match a
    case Last(t) => CloseTree(t, u, d);
    case More(t, rest) =>
      var after := "," + (PrintArgs(rest) + u);
      assert PrintArgs(a) + u == Print(t) + after;
      CloseTree(t, after, d);
      ClosePlain(",", PrintArgs(rest) + u, d);
      CloseArgs(rest, u, d);
  }

  lemma {:induction false} ArgumentTree(t: Tree, u: string, d: nat)
    requires WellFormed(t)
    ensures ArgumentLength(Print(t) + u, d) == |Print(t)| + ArgumentLength(u, d)
    decreases t, 1
  {
    if t.Nil? {
      assert Print(t) + u == u;
    } else {
      var rest := Print(t.tail) + u;
      assert Print(t) + u == PrintItem(t.head) + rest;
      ArgumentItem(t.head, rest, d);
      ArgumentTree(t.tail, u, d);
    }
  }

  lemma {:induction false} ArgumentItem(h: Item, u: string, d: nat)
    requires WellFormedItem(h)
    ensures ArgumentLength(PrintItem(h) + u, d) == |PrintItem(h)| + ArgumentLength(u, d)
    decreases h, 0
  {
    match h
    case Mark(c) => ArgumentPlain([c], u, d);
    case Word(w) =>
      WordIsPlain(w);
      ArgumentPlain(w, u, d);
    case Call(name, gap, args) =>
      var tail := ")" + u;
      var inner := PrintArgs(args) + tail;
      assert PrintItem(h) + u == name + (gap + ("(" + inner));
      WordIsPlain(name);
      GapIsPlain(gap);
      ArgumentPlain(name, gap + ("(" + inner), d);
      ArgumentPlain(gap, "(" + inner, d);
      assert ("(" + inner)[1..] == inner && tail[1..] == u;
      ArgumentArgs(args, tail, d + 1);
  }

  lemma {:induction false} ArgumentArgs(a: Args, u: string, d: nat)
    requires WellFormedArgs(a) && d > 0
    ensures ArgumentLength(PrintArgs(a) + u, d) == |PrintArgs(a)| + ArgumentLength(u, d)
    decreases a, 0
  {
    match a
    case Last(t) => ArgumentTree(t, u, d);
    case More(t, rest) =>
      var after := "," + (PrintArgs(rest) + u);
      assert PrintArgs(a) + u == Print(t) + after;
      ArgumentTree(t, after, d);
      ArgumentPlain(",", PrintArgs(rest) + u, d);
      ArgumentArgs(rest, u, d);
  }

  // ----- trimming agrees with stripping

  lemma ItemEnds(h: Item)
    requires WellFormedItem(h) && !IsSpaceItem(h)
    ensures var p := PrintItem(h); p != "" && !IsSpace(p[0]) && !IsSpace(p[|p| - 1])
  {
    match h
    case Mark(c) =>
    case Word(w) =>
      if IsSpace(w[0]) {
        SpaceIsNoWordChar(w[0]);
      }
      if IsSpace(w[|w| - 1]) {
        SpaceIsNoWordChar(w[|w| - 1]);
      }
    case Call(name, gap, args) =>
      PrintCall(h);
      if name != "" && IsSpace(name[0]) {
        SpaceIsNoWordChar(name[0]);
      }
  }

  lemma {:induction false} StripLeftTree(t: Tree)
    requires WellFormed(t)
    ensures StripLeft(Print(t)) == Print(TrimLeft(t))
  {
    if t.Cons? {
      if IsSpaceItem(t.head) {
        assert PrintItem(t.head) == [t.head.c];
        assert Print(t)[1..] == Print(t.tail);
        StripLeftTree(t.tail);
      } else {
        ItemEnds(t.head);
      }
    }
  }

  lemma {:induction false} StripRightAppend(x: string, y: string)
    ensures StripRight(x + y) == if StripRight(y) == "" then StripRight(x) else x + StripRight(y)
    decreases |y|
  {
    if y == "" {
      assert x + y == x;
    } else {
      var z := x + y;
      assert z[|z| - 1] == y[|y| - 1];
      if IsSpace(y[|y| - 1]) {
        assert z[..|z| - 1] == x + y[..|y| - 1];
        StripRightAppend(x, y[..|y| - 1]);
      }
    }
  }

  lemma {:induction false} StripRightTree(t: Tree)
    requires WellFormed(t)
    ensures StripRight(Print(t)) == Print(TrimRight(t))
    ensures Print(TrimRight(t)) == "" <==> TrimRight(t).Nil?
  {
    if t.Cons? {
      StripRightTree(t.tail);
      StripRightAppend(PrintItem(t.head), Print(t.tail));
      if IsSpaceItem(t.head) {
        assert PrintItem(t.head)[..0] == "";
        assert StripRight("") == "";
      } else {
        ItemEnds(t.head);
        assert PrintItem(t.head) + "" == PrintItem(t.head);
      }
    }
  }

  lemma {:induction false} TrimKeepsForm(t: Tree)
    requires WellFormed(t)
    ensures WellFormed(TrimLeft(t)) && WellFormed(TrimRight(t))
    ensures TrimRight(t).Cons? ==> t.Cons? && TrimRight(t).head == t.head
  {
    if t.Cons? {
      TrimKeepsForm(t.tail);
    }
  }

  lemma {:induction false} AppendKeepsForm(a: Tree, b: Tree)
    requires WellFormed(a) && WellFormed(b) && (b.Cons? ==> b.head.Mark?)
    ensures WellFormed(Append(a, b))
    ensures Print(Append(a, b)) == Print(a) + Print(b)
  {
    if a.Cons? {
      AppendKeepsForm(a.tail, b);
    }
  }

  // ----- one pass on the text is one pass on the tree

  lemma RewriteAfterSkip(a: string, s: string)
    requires Skipped(a, s) && Rewritable(s)
    ensures Rewritable(a + s) && Rewrite(a + s) == a + Rewrite(s)
  {
    var u := Unwrap(Body(FromRound(s)));
    assert (a + BeforeRound(s)) + u == a + (BeforeRound(s) + u);
  }

  lemma CallStartsMatch(name: string, gap: string, inner: string)
    requires IsRound(name) && IsBlank(gap)
    ensures var u := name + (gap + ("(" + inner)); StartsRound(u) && Body(u) == inner
  {
    var u := name + (gap + ("(" + inner));
    assert u[5..] == gap + ("(" + inner);
    StripGap(gap, "(" + inner);
    assert StripLeft("(" + inner) == "(" + inner;
    assert ("(" + inner)[1..] == inner;
  }

  lemma UnwrapSplit(b: string, inner: string, rest: string, arg: string, after: string)
    requires b == inner + (")" + rest) && b == arg + after
    requires CloseOffset(b, 1) == |inner| && ArgumentLength(b, 0) == |arg|
    ensures Unwrap(b) == Strip(arg) + rest
  {
    assert b[..|arg|] == arg;
    assert b[|inner| + 1..] == rest;
  }

  lemma ArgsCloseAt(a: Args, rest: string)
    requires WellFormedArgs(a)
    ensures CloseOffset(PrintArgs(a) + (")" + rest), 1) == |PrintArgs(a)|
  {
    CloseArgs(a, ")" + rest, 1);
  }

  /** What follows the first argument in printed arguments. */
  function AfterFirst(a: Args, rest: string): string
  {
    match a
    case Last(_) => ")" + rest
    case More(_, more) => "," + (PrintArgs(more) + (")" + rest))
  }

  lemma FirstArgumentLength(a: Args, rest: string)
    requires WellFormedArgs(a)
    ensures PrintArgs(a) + (")" + rest) == Print(a.arg) + AfterFirst(a, rest)
    ensures ArgumentLength(PrintArgs(a) + (")" + rest), 0) == |Print(a.arg)|
  {
    assert PrintArgs(a) + (")" + rest) == Print(a.arg) + AfterFirst(a, rest);
    ArgumentTree(a.arg, AfterFirst(a, rest), 0);
  }

  lemma UnwrapArgs(a: Args, rest: string)
    requires WellFormedArgs(a)
    ensures var b := PrintArgs(a) + (")" + rest);
            CloseOffset(b, 1) >= 0 && Unwrap(b) == Strip(Print(a.arg)) + rest
  {
    ArgsCloseAt(a, rest);
    FirstArgumentLength(a, rest);
    UnwrapSplit(PrintArgs(a) + (")" + rest), PrintArgs(a), rest, Print(a.arg), AfterFirst(a, rest));
  }

  lemma {:induction false} PassTree(t: Tree, q: string)
    requires WellFormed(t) && HasRound(t) && StopsWord(q)
    ensures WellFormed(Pass(t)) && (t.head.Mark? ==> Pass(t).Cons? && Pass(t).head == t.head)
    ensures Rewritable(Print(t) + q) && Rewrite(Print(t) + q) == Print(Pass(t)) + q
    decreases t, 1
  {
    var h, after := t.head, Print(t.tail) + q;
    assert Print(t) + q == PrintItem(h) + after;
    if !ItemHasRound(h) {
      PassTree(t.tail, q);
      PassBehind(t, q);
    } else if IsRound(h.name) {
      PassRoundCall(t, q);
    } else {
      PassArguments(h.args, ")" + after);
      PassInsideCall(h, after);
      Associate(PrintItem(Call(h.name, h.gap, PassArgs(h.args))), Print(t.tail), q);
    }
  }

  /** An item without ROUND calls stays in front of what is rewritten behind it. */
  lemma PassBehind(t: Tree, q: string)
    requires WellFormed(t) && HasRound(t) && !ItemHasRound(t.head) && StopsWord(q)
    requires var after := Print(t.tail) + q; Rewritable(after) && Rewrite(after) == Print(Pass(t.tail)) + q
    ensures Rewritable(Print(t) + q) && Rewrite(Print(t) + q) == Print(Pass(t)) + q
  {
    var after := Print(t.tail) + q;
    if t.head.Word? {
      TailStopsWord(t, q);
    }
    SkipItem(t.head, after);
    RewriteAfterSkip(PrintItem(t.head), after);
    Associate(PrintItem(t.head), Print(t.tail), q);
    Associate(PrintItem(t.head), Print(Pass(t.tail)), q);
  }

  lemma PassInsideCall(h: Item, after: string)
    requires WellFormedItem(h) && h.Call? && !IsRound(h.name) && ArgsHaveRound(h.args)
    requires var s := PrintArgs(h.args) + (")" + after);
             Rewritable(s) && Rewrite(s) == PrintArgs(PassArgs(h.args)) + (")" + after)
    ensures Rewritable(PrintItem(h) + after)
    ensures Rewrite(PrintItem(h) + after) == PrintItem(Call(h.name, h.gap, PassArgs(h.args))) + after
  {
    var head := h.name + (h.gap + "(");
    var s := PrintArgs(h.args) + (")" + after);
    CallHeadIsPlain(h.name);
    SkipHead(h.name, h.gap, s);
    RewriteAfterSkip(head, s);
    PrintAround(h, after);
    PrintAround(Call(h.name, h.gap, PassArgs(h.args)), after);
  }

  lemma PrintAround(h: Item, after: string)
    requires h.Call?
    ensures PrintItem(h) + after == (h.name + (h.gap + "(")) + (PrintArgs(h.args) + (")" + after))
  {
    PrintCall(h);
    Associate(h.name + (h.gap + "("), PrintArgs(h.args) + ")", after);
    Associate(PrintArgs(h.args), ")", after);
  }

  lemma TrimmedTree(t: Tree)
    requires WellFormed(t)
    ensures var r := TrimRight(TrimLeft(t)); WellFormed(r) && Strip(Print(t)) == Print(r)
  {
    TrimKeepsForm(t);
    TrimKeepsForm(TrimLeft(t));
    StripLeftTree(t);
    StripRightTree(TrimLeft(t));
  }

  lemma RewriteAtStart(u: string, b: string)
    requires StartsRound(u) && Body(u) == b && CloseOffset(b, 1) >= 0
    ensures Rewritable(u) && Rewrite(u) == Unwrap(b)
  {
    assert BeforeRound(u) == "";
    assert "" + Unwrap(b) == Unwrap(b);
  }

  lemma PassRoundCall(t: Tree, q: string)
    requires WellFormed(t) && t.Cons? && t.head.Call? && IsRound(t.head.name)
    ensures WellFormed(Pass(t))
    ensures Rewritable(Print(t) + q) && Rewrite(Print(t) + q) == Print(Pass(t)) + q
  {
    var h, after := t.head, Print(t.tail) + q;
    var inner := PrintArgs(h.args) + (")" + after);
    assert WellFormedItem(h) && WellFormed(t.tail);
    assert Print(t) + q == h.name + (h.gap + ("(" + inner)) by {
      PrintRoundCall(t, q);
    }
    CallStartsMatch(h.name, h.gap, inner);
    UnwrapArgs(h.args, after);
    RewriteAtStart(Print(t) + q, inner);
    var trimmed := TrimRight(TrimLeft(h.args.arg));
    TrimmedTree(h.args.arg);
    AppendKeepsForm(trimmed, t.tail);
    Associate(Print(trimmed), Print(t.tail), q);
  }

  lemma PrintRoundCall(t: Tree, q: string)
    requires t.Cons? && t.head.Call?
    ensures Print(t) + q
         == t.head.name + (t.head.gap + ("(" + (PrintArgs(t.head.args) + (")" + (Print(t.tail) + q)))))
  {
    var h, after := t.head, Print(t.tail) + q;
    Associate(PrintItem(h), Print(t.tail), q);
    CallText(h.name, h.gap, PrintArgs(h.args), after);
  }

  lemma CallText(name: string, gap: string, x: string, after: string)
    ensures (name + (gap + ("(" + (x + ")")))) + after == name + (gap + ("(" + (x + (")" + after))))
  {
    Associate(x, ")", after);
    Associate("(", x + ")", after);
    Associate(gap, "(" + (x + ")"), after);
    Associate(name, gap + ("(" + (x + ")")), after);
  }

  lemma {:induction false} PassArguments(a: Args, q: string)
    requires WellFormedArgs(a) && ArgsHaveRound(a) && StopsWord(q)
    ensures WellFormedArgs(PassArgs(a))
    ensures Rewritable(PrintArgs(a) + q) && Rewrite(PrintArgs(a) + q) == PrintArgs(PassArgs(a)) + q
    decreases a, 0
  {
    match a
    case Last(t) => PassTree(t, q);
    case More(t, rest) =>
      MoreText(t, rest, q);
      if HasRound(t) {
        PassTree(t, "," + (PrintArgs(rest) + q));
        MoreText(Pass(t), rest, q);
      } else {
        PassArguments(rest, q);
        PassLaterArguments(t, PrintArgs(rest) + q, PrintArgs(PassArgs(rest)) + q);
        MoreText(t, PassArgs(rest), q);
      }
  }

  lemma MoreText(t: Tree, rest: Args, q: string)
    ensures PrintArgs(More(t, rest)) + q == Print(t) + ("," + (PrintArgs(rest) + q))
  {
    Associate(Print(t), "," + PrintArgs(rest), q);
    Associate(",", PrintArgs(rest), q);
  }

  lemma PassLaterArguments(t: Tree, later: string, passed: string)
    requires WellFormed(t) && !HasRound(t) && Rewritable(later) && Rewrite(later) == passed
    ensures Rewritable(Print(t) + ("," + later)) && Rewrite(Print(t) + ("," + later)) == Print(t) + ("," + passed)
  {
    SkipTree(t, "," + later);
    MarkIsNoMatch(',', later);
    SkipOne(',', later);
    RewriteAfterSkip(",", later);
    RewriteAfterSkip(Print(t), "," + later);
  }

  // ----- what a pass keeps

  lemma {:induction false} NoSpacesAppend(a: string, b: string)
    ensures NoSpaces(a + b) == NoSpaces(a) + NoSpaces(b)
  {
    if a == "" {
      assert a + b == b;
    } else {
      assert (a + b)[1..] == a[1..] + b;
      NoSpacesAppend(a[1..], b);
    }
  }

  lemma {:induction false} EraseAppend(a: Tree, b: Tree)
    ensures Erase(Append(a, b)) == Append(Erase(a), Erase(b))
  {
    if a.Cons? {
      EraseAppend(a.tail, b);
      if a.head.Call? && IsRound(a.head.name) {
        AppendAssociates(Erase(a.head.args.arg), Erase(a.tail), Erase(b));
      }
    }
  }

  lemma {:induction false} AppendAssociates(a: Tree, b: Tree, c: Tree)
    ensures Append(Append(a, b), c) == Append(a, Append(b, c))
  {
    if a.Cons? {
      AppendAssociates(a.tail, b, c);
    }
  }

  /** The text a tree stands for once ROUND calls are gone, without spaces. */
  function Meaning(t: Tree): string
  {
    NoSpaces(Print(Erase(t)))
  }

  lemma {:induction false} PrintAppend(a: Tree, b: Tree)
    ensures Print(Append(a, b)) == Print(a) + Print(b)
  {
    if a.Cons? {
      PrintAppend(a.tail, b);
    } else {
      assert "" + Print(b) == Print(b);
    }
  }

  lemma MeaningAppend(a: Tree, b: Tree)
    ensures Meaning(Append(a, b)) == Meaning(a) + Meaning(b)
  {
    EraseAppend(a, b);
    PrintAppend(Erase(a), Erase(b));
    NoSpacesAppend(Print(Erase(a)), Print(Erase(b)));
  }

  lemma MeaningCons(h: Item, t: Tree)
    ensures Meaning(Cons(h, t)) == Meaning(Cons(h, Nil)) + Meaning(t)
  {
    MeaningAppend(Cons(h, Nil), t);
    assert Append(Cons(h, Nil), t) == Cons(h, Append(Nil, t));
  }

  lemma MeaningOfSpace(h: Item)
    requires IsSpaceItem(h)
    ensures Meaning(Cons(h, Nil)) == ""
  {
    assert Erase(Cons(Mark(h.c), Nil)) == Cons(Mark(h.c), Nil);
    assert Print(Cons(h, Nil)) == [h.c];
    assert [h.c][1..] == "" && NoSpaces("") == "";
  }

  lemma {:induction false} TrimKeepsMeaning(t: Tree)
    ensures Meaning(TrimLeft(t)) == Meaning(t) && Meaning(TrimRight(t)) == Meaning(t)
  {
    if t.Cons? {
      TrimKeepsMeaning(t.tail);
      MeaningCons(t.head, t.tail);
      MeaningCons(t.head, TrimRight(t.tail));
      if IsSpaceItem(t.head) {
        MeaningOfSpace(t.head);
        assert "" + Meaning(t.tail) == Meaning(t.tail);
      }
    }
  }

  function MeaningArgs(a: Args): string
  {
    NoSpaces(PrintArgs(EraseArgs(a)))
  }

  lemma MeaningMore(t: Tree, rest: Args)
    ensures MeaningArgs(More(t, rest)) == Meaning(t) + ("," + MeaningArgs(rest))
  {
    NoSpacesAppend(Print(Erase(t)), "," + PrintArgs(EraseArgs(rest)));
    NoSpacesAppend(",", PrintArgs(EraseArgs(rest)));
    assert NoSpaces(",") == ",";
  }

  lemma MeaningCall(name: string, gap: string, args: Args)
    requires !IsRound(name)
    ensures Meaning(Cons(Call(name, gap, args), Nil)) == NoSpaces(name + (gap + "(")) + (MeaningArgs(args) + ")")
  {
    var e := Call(name, gap, EraseArgs(args));
    assert Erase(Cons(Call(name, gap, args), Nil)) == Cons(e, Erase(Nil));
    assert Print(Cons(e, Nil)) == PrintItem(e) + "";
    assert PrintItem(e) + "" == PrintItem(e);
    PrintCall(e);
    NoSpacesAppend(name + (gap + "("), PrintArgs(EraseArgs(args)) + ")");
    NoSpacesAppend(PrintArgs(EraseArgs(args)), ")");
    assert NoSpaces(")") == ")";
  }

  lemma {:induction false} PassKeepsMeaning(t: Tree)
    requires HasRound(t)
    ensures Meaning(Pass(t)) == Meaning(t)
    decreases t
  {
    var h := t.head;
    MeaningCons(h, t.tail);
    if !ItemHasRound(h) {
      PassKeepsMeaning(t.tail);
      MeaningCons(h, Pass(t.tail));
    } else if IsRound(h.name) {
      var first := h.args.arg;
      TrimKeepsMeaning(first);
      TrimKeepsMeaning(TrimLeft(first));
      MeaningAppend(TrimRight(TrimLeft(first)), t.tail);
      MeaningAppend(first, t.tail);
      EraseAppend(first, t.tail);
    } else {
      PassArgsKeepMeaning(h.args);
      MeaningCons(Call(h.name, h.gap, PassArgs(h.args)), t.tail);
      MeaningCall(h.name, h.gap, h.args);
      MeaningCall(h.name, h.gap, PassArgs(h.args));
    }
  }

  lemma {:induction false} PassArgsKeepMeaning(a: Args)
    requires ArgsHaveRound(a)
    ensures MeaningArgs(PassArgs(a)) == MeaningArgs(a)
    decreases a
  {
    if HasRound(a.arg) {
      PassKeepsMeaning(a.arg);
    } else {
      PassArgsKeepMeaning(a.rest);
    }
    if a.More? {
      MeaningMore(a.arg, a.rest);
      if HasRound(a.arg) {
        MeaningMore(Pass(a.arg), a.rest);
      } else {
        MeaningMore(a.arg, PassArgs(a.rest));
      }
    }
  }

  lemma {:induction false} NothingToErase(t: Tree)
    requires !HasRound(t)
    ensures Erase(t) == t
    decreases t
  {
    if t.Cons? {
      NothingToErase(t.tail);
      if t.head.Call? {
        NothingToEraseInArgs(t.head.args);
      }
    }
  }

  lemma {:induction false} NothingToEraseInArgs(a: Args)
    requires !ArgsHaveRound(a)
    ensures EraseArgs(a) == a
    decreases a
  {
    NothingToErase(a.arg);
    if a.More? {
      NothingToEraseInArgs(a.rest);
    }
  }

  lemma NoMatchLeft(a: Args)
    requires WellFormedArgs(a) && !ArgsHaveRound(a)
    ensures FromRound(PrintArgs(a)) == ""
  {
    SkipArgs(a, "");
    assert PrintArgs(a) + "" == PrintArgs(a);
  }

  /** Meaning of the whole algorithm: on the print of any well-formed comma-separated text, removing ROUND calls
      gives, up to spaces, the print of the tree with every ROUND call replaced by its first argument. */
  lemma {:induction false} RemoveRoundErases(a: Args)
    requires WellFormedArgs(a)
    ensures NoSpaces(RemoveRound(PrintArgs(a))) == NoSpaces(PrintArgs(EraseArgs(a)))
    decreases |PrintArgs(a)|
  {
    if ArgsHaveRound(a) {
      PassArguments(a, "");
      assert PrintArgs(a) + "" == PrintArgs(a) && PrintArgs(PassArgs(a)) + "" == PrintArgs(PassArgs(a));
      RewriteShortens(PrintArgs(a));
      RemoveRoundErases(PassArgs(a));
      PassArgsKeepMeaning(a);
    } else {
      NoMatchLeft(a);
      NothingToEraseInArgs(a);
    }
  }

  // ----- a ROUND call that runs into a word

  function OneWord(w: string): Tree
  {
    Cons(Word(w), Nil)
  }

  lemma PrintOneWord(w: string)
    ensures Print(OneWord(w)) == w
    ensures PrintArgs(Last(OneWord(w))) == w
  {
    assert w + "" == w;
  }

  lemma OneWordIsFormed(w: string)
    requires w != "" && AllWordChars(w) && !EndsInRound(w)
    ensures WellFormed(OneWord(w)) && WellFormedArgs(Last(OneWord(w)))
    ensures !HasRound(OneWord(w)) && !ArgsHaveRound(Last(OneWord(w)))
  {
    assert WellFormed(Nil) && WellFormedItem(Word(w));
    assert !HasRound(Nil) && !ItemHasRound(Word(w));
  }

  lemma WordIsKept(w: string)
    requires w != "" && AllWordChars(w) && !EndsInRound(w)
    ensures Strip(w) == w && RemoveRound(w) == w
  {
    var t := OneWord(w);
    OneWordIsFormed(w);
    PrintOneWord(w);
    TrimmedTree(t);
    assert TrimLeft(t) == t;
    assert TrimRight(Nil) == Nil && TrimRight(t) == t;
    NoMatchLeft(Last(t));
  }

  /** A ROUND call without a gap, as text. */
  function RoundOf(inner: string, rest: string): string
  {
    "ROUND" + ("" + ("(" + (inner + (")" + rest))))
  }

  lemma RoundSpelling(inner: string, rest: string)
    ensures StartsRound(RoundOf(inner, rest)) && Body(RoundOf(inner, rest)) == inner + (")" + rest)
  {
    CallStartsMatch("ROUND", "", inner + (")" + rest));
  }

  lemma RoundOfWord(w: string, rest: string)
    requires w != "" && AllWordChars(w) && !EndsInRound(w)
    ensures RemoveRound(RoundOf(w, rest)) == RemoveRound(w + rest)
  {
    OneWordIsFormed(w);
    PrintOneWord(w);
    WordIsKept(w);
    RoundSpelling(w, rest);
    UnwrapArgs(Last(OneWord(w)), rest);
    OnePass(RoundOf(w, rest), w + (")" + rest));
  }

  lemma OnePass(u: string, b: string)
    requires StartsRound(u) && Body(u) == b && CloseOffset(b, 1) >= 0
    ensures RemoveRound(u) == RemoveRound(Unwrap(b))
  {
    RewriteAtStart(u, b);
    RewriteShortens(u);
  }

  lemma ShortWord(w: string)
    requires 0 < |w| < 5
    ensures !EndsInRound(w)
  {
  }

  lemma PartsAreFormed(round: Item, und: Item)
    requires round == Call("ROUND", "", Last(OneWord("RO"))) && und == Call("UND", "", Last(OneWord("x")))
    ensures WellFormedItem(round) && WellFormed(Cons(und, Nil))
  {
    ShortWord("RO");
    ShortWord("x");
    ShortWord("UND");
    OneWordIsFormed("RO");
    OneWordIsFormed("x");
    assert WellFormedItem(und) && WellFormed(Nil);
  }

  lemma TextLosesBoth()
    ensures RemoveRound(RoundOf("RO", "UND(x)")) == "x"
  {
    RoundOfWord("RO", "UND(x)");
    assert "RO" + "UND(x)" == RoundOf("x", "");
    RoundOfWord("x", "");
    assert "x" + "" == "x";
    WordIsKept("x");
  }

  lemma PrintUnd(und: Item)
    requires und == Call("UND", "", Last(OneWord("x")))
    ensures Print(Cons(und, Nil)) == "UND(x)"
  {
    PrintOneWord("x");
    assert PrintItem(und) == "UND" + ("" + ("(" + ("x" + ")")));
    assert PrintItem(und) + "" == "UND(x)";
  }

  lemma PrintIsRoundOf(round: Item, tail: Tree, rest: string)
    requires round == Call("ROUND", "", Last(OneWord("RO"))) && Print(tail) == rest
    ensures Print(Cons(round, tail)) == RoundOf("RO", rest)
  {
    PrintOneWord("RO");
    CallText("ROUND", "", "RO", rest);
  }

  lemma EraseRoundUnd(round: Item, und: Item)
    requires round == Call("ROUND", "", Last(OneWord("RO"))) && und == Call("UND", "", Last(OneWord("x")))
    ensures Print(Erase(Cons(round, Cons(und, Nil)))) == "ROUND(x)"
  {
    var tail := Cons(und, Nil);
    assert Erase(OneWord("x")) == OneWord("x") && Erase(OneWord("RO")) == OneWord("RO");
    assert !IsRound("UND") && IsRound("ROUND");
    assert Erase(tail) == tail;
    assert Append(OneWord("RO"), tail) == Cons(Word("RO"), tail);
    PrintUnd(und);
    assert "RO" + "UND(x)" == "ROUND(x)";
  }

  /** Without the separation the claim fails: the argument of `ROUND(RO)` runs into the word behind it and makes a
      ROUND call that no tree had. */
  lemma ArgumentRunsIntoWord(round: Item, und: Item)
    requires round == Call("ROUND", "", Last(OneWord("RO"))) && und == Call("UND", "", Last(OneWord("x")))
    ensures WellFormedItem(round) && WellFormed(Cons(und, Nil))
    ensures RemoveRound(Print(Cons(round, Cons(und, Nil)))) == "x"
    ensures Print(Erase(Cons(round, Cons(und, Nil)))) == "ROUND(x)"
  {
    PartsAreFormed(round, und);
    PrintUnd(und);
    PrintIsRoundOf(round, Cons(und, Nil), "UND(x)");
    TextLosesBoth();
    EraseRoundUnd(round, und);
  }
}
