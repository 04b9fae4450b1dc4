/** Repair of single-backslash LaTeX commands in a knowledge-base line before it is decoded as JSON
    (db_environment/server.py), and what the repaired text decodes to under section 7 of RFC 8259. */
module EscapeRepair {
  import opened Text
  import opened Options

  /** What the repair depends on: which characters count as alphabetic, and the known commands. */
  datatype Words = Words(alpha: char -> bool, commands: set<string>)
  {
    ghost predicate Valid()
    {
      && (forall c :: IsLetter(c) ==> alpha(c))
      && !alpha('\\')
      && (forall w :: w in commands ==> IsWord(w))
    }
  }

  type Lexicon = w: Words | w.Valid() witness Words(IsLetter, {})

  predicate IsWord(w: string)
  {
    w != "" && forall k :: 0 <= k < |w| ==> IsLetter(w[k])
  }

  /** The commands observed in the shipped knowledge bases. */
  const COMMANDS: set<string> := {"bar", "begin", "beta", "frac", "text", "times"}

  lemma ShippedLexiconIsValid(alpha: char -> bool)
    requires forall c :: IsLetter(c) ==> alpha(c)
    requires !alpha('\\')
    ensures Words(alpha, COMMANDS).Valid()
  {
  }

  function LeadingWord(lex: Lexicon, s: string): (w: string)
    ensures w <= s && forall k :: 0 <= k < |w| ==> lex.alpha(w[k])
    ensures |w| < |s| ==> !lex.alpha(s[|w|])
  {
    if s == "" || !lex.alpha(s[0]) then "" else [s[0]] + LeadingWord(lex, s[1..])
  }

  predicate KnownCommand(lex: Lexicon, s: string)
  {
    LeadingWord(lex, s) in lex.commands
  }

  /** The backslash still missing before `s`. */
  function Mark(lex: Lexicon, odd: bool, s: string): string
  {
    if odd && KnownCommand(lex, s) then "\\" else ""
  }

  /** The repair of `s` after a run of backslashes whose length is odd or even. */
  function RepairAfter(lex: Lexicon, odd: bool, s: string): string
    decreases |s|
  {
    if s == "" then ""
    else
      Mark(lex, odd, s) + [s[0]] + RepairAfter(lex, s[0] == '\\' && !odd, s[1..])
  }

  function Repair(lex: Lexicon, s: string): string
  {
    RepairAfter(lex, false, s)
  }

  function Slashes(n: nat): (s: string)
    ensures |s| == n && forall k :: 0 <= k < n ==> s[k] == '\\'
  {
    seq(n, _ => '\\')
  }

  lemma SlashesSplit(n: nat)
    requires n > 0
    ensures Slashes(n) == "\\" + Slashes(n - 1) && Slashes(n) == Slashes(n - 1) + "\\"
  {
  }

  /** One character of the repair. */
  lemma RepairStep(lex: Lexicon, odd: bool, c: char, rest: string)
    ensures RepairAfter(lex, odd, [c] + rest)
            == Mark(lex, odd, [c] + rest) + [c] + RepairAfter(lex, c == '\\' && !odd, rest)
    ensures c == '\\' ==> Mark(lex, odd, [c] + rest) == ""
  {
    assert ([c] + rest)[1..] == rest;
  }

  predicate Flipped(odd: bool, n: nat)
  {
    odd != (n % 2 == 1)
  }

  lemma {:induction false} RepairRun(lex: Lexicon, odd: bool, n: nat, rest: string)
    ensures RepairAfter(lex, odd, Slashes(n) + rest) == Slashes(n) + RepairAfter(lex, Flipped(odd, n), rest)
    decreases n
  {
    if n == 0 {
      assert Slashes(0) + rest == rest;
      assert Slashes(0) + RepairAfter(lex, odd, rest) == RepairAfter(lex, odd, rest);
    } else {
      var last := RepairAfter(lex, Flipped(odd, n), rest);
      assert Flipped(!odd, n - 1) == Flipped(odd, n);
      RepairRun(lex, !odd, n - 1, rest);
      RunStep(lex, odd, n, rest, last);
    }
  }

  lemma RunStep(lex: Lexicon, odd: bool, n: nat, rest: string, last: string)
    requires n > 0 && RepairAfter(lex, !odd, Slashes(n - 1) + rest) == Slashes(n - 1) + last
    ensures RepairAfter(lex, odd, Slashes(n) + rest) == Slashes(n) + last
  {
    SlashesSplit(n);
    var before := Slashes(n - 1);
    Associate("\\", before, rest);
    RepairStep(lex, odd, '\\', before + rest);
    Associate("\\", before, last);
  }

  /** After a maximal run only the pending escape of an odd run is left to decide. */
  lemma AfterRun(lex: Lexicon, odd: bool, s: string)
    requires s != "" ==> s[0] != '\\'
    ensures RepairAfter(lex, odd, s) == Mark(lex, odd, s) + RepairAfter(lex, false, s)
  {
    if s != "" {
      Associate(Mark(lex, odd, s), [s[0]], RepairAfter(lex, false, s[1..]));
    }
  }

  /** A maximal run is kept, followed by the missing backslash if one is due. */
  lemma WholeRun(lex: Lexicon, n: nat, rest: string)
    requires rest != "" ==> rest[0] != '\\'
    ensures RepairAfter(lex, false, Slashes(n) + rest)
            == Slashes(n) + Mark(lex, n % 2 == 1, rest) + RepairAfter(lex, false, rest)
  {
    RepairRun(lex, false, n, rest);
    AfterRun(lex, n % 2 == 1, rest);
    Associate(Slashes(n), Mark(lex, n % 2 == 1, rest), RepairAfter(lex, false, rest));
  }

  /** The end of the run of backslashes that starts at `index`. */
  method RunEnd(raw: string, index: nat) returns (runEnd: nat)
    requires index <= |raw|
    ensures index <= runEnd <= |raw|
    ensures raw[index..] == Slashes(runEnd - index) + raw[runEnd..]
    ensures runEnd < |raw| ==> raw[runEnd] != '\\'
  {
    runEnd := index;
    while runEnd < |raw| && raw[runEnd] == '\\'
      invariant index <= runEnd <= |raw|
      invariant forall k :: index <= k < runEnd ==> raw[k] == '\\'
    {
      runEnd := runEnd + 1;
    }
  }

  /** The alphabetic word that starts at `runEnd`. */
  method CommandAt(lex: Lexicon, raw: string, runEnd: nat) returns (command: string)
    requires runEnd <= |raw|
    ensures command == LeadingWord(lex, raw[runEnd..])
  {
    var commandEnd := runEnd;
    while commandEnd < |raw| && lex.alpha(raw[commandEnd])
      invariant runEnd <= commandEnd <= |raw|
      invariant forall k :: runEnd <= k < commandEnd ==> lex.alpha(raw[k])
    {
      commandEnd := commandEnd + 1;
    }
    command := raw[runEnd..commandEnd];
    WordIsMaximal(lex, raw[runEnd..], command);
  }

  /** The index-driven loop: one run of backslashes or one other character at a time. */
  method PreserveLatexEscapes(lex: Lexicon, raw: string) returns (result: string)
    ensures result == Repair(lex, raw)
  {
    result := "";
    var index := 0;
    while index < |raw|
      invariant 0 <= index <= |raw|
      invariant result + RepairAfter(lex, false, raw[index..]) == Repair(lex, raw)
      decreases |raw| - index
    {
      ghost var done := result;
      if raw[index] != '\\' {
        CharacterIsCopied(lex, done, raw, index);
        result := result + [raw[index]];
        index := index + 1;
      } else {
        var runEnd := RunEnd(raw, index);
        var count := runEnd - index;
        result := result + Slashes(count);
        ghost var rest := raw[runEnd..];
        if count % 2 == 1 {
          var command := CommandAt(lex, raw, runEnd);
          if command in lex.commands {
            result := result + "\\";
          }
        }
        RunIsCopied(lex, done, count, rest);
        index := runEnd;
      }
    }
    assert raw[index..] == "";
  }

  lemma CharacterIsCopied(lex: Lexicon, done: string, raw: string, index: nat)
    requires index < |raw| && raw[index] != '\\'
    ensures done + RepairAfter(lex, false, raw[index..])
            == done + [raw[index]] + RepairAfter(lex, false, raw[index + 1..])
  {
    var rest := raw[index + 1..];
    assert raw[index..] == [raw[index]] + rest;
    RepairStep(lex, false, raw[index], rest);
    Associate(done, [raw[index]], RepairAfter(lex, false, rest));
  }

  lemma RunIsCopied(lex: Lexicon, done: string, n: nat, rest: string)
    requires rest != "" ==> rest[0] != '\\'
    ensures done + RepairAfter(lex, false, Slashes(n) + rest)
            == done + Slashes(n) + Mark(lex, n % 2 == 1, rest) + RepairAfter(lex, false, rest)
  {
    WholeRun(lex, n, rest);
    Associate(done, Slashes(n), Mark(lex, n % 2 == 1, rest));
    Associate(done, Slashes(n) + Mark(lex, n % 2 == 1, rest), RepairAfter(lex, false, rest));
  }

  lemma WordIsMaximal(lex: Lexicon, s: string, w: string)
    requires w <= s && (forall k :: 0 <= k < |w| ==> lex.alpha(w[k])) && (|w| < |s| ==> !lex.alpha(s[|w|]))
    ensures LeadingWord(lex, s) == w
  {
    var v := LeadingWord(lex, s);
    assert forall k :: 0 <= k < |v| ==> v[k] == s[k];
    assert forall k :: 0 <= k < |w| ==> w[k] == s[k];
  }

  // ----- exactly where a backslash is inserted

  function SlashesBefore(s: string, i: nat): nat
    requires i <= |s|
  {
    if i > 0 && s[i - 1] == '\\' then 1 + SlashesBefore(s, i - 1) else 0
  }

  /** An odd run of backslashes ends at `i`, where a known command starts. */
  predicate Due(lex: Lexicon, s: string, i: nat)
    requires i <= |s|
  {
    SlashesBefore(s, i) % 2 == 1 && KnownCommand(lex, s[i..])
  }

  /** The first `i` characters of `s`, with one backslash inserted at every due position. */
  function Inserted(lex: Lexicon, s: string, i: nat): string
    requires i <= |s|
  {
    if i == 0 then ""
    else Inserted(lex, s, i - 1) + Mark(lex, SlashesBefore(s, i - 1) % 2 == 1, s[i - 1..]) + [s[i - 1]]
  }

  lemma {:induction false} RepairedUpTo(lex: Lexicon, s: string, i: nat)
    requires i <= |s|
    ensures Repair(lex, s) == Inserted(lex, s, i) + RepairAfter(lex, SlashesBefore(s, i) % 2 == 1, s[i..])
  {
    if i == 0 {
      assert s[0..] == s;
    } else {
      RepairedUpTo(lex, s, i - 1);
      InsertStep(lex, s, i);
    }
  }

  lemma InsertStep(lex: Lexicon, s: string, i: nat)
    requires 0 < i <= |s|
    ensures Inserted(lex, s, i - 1) + RepairAfter(lex, SlashesBefore(s, i - 1) % 2 == 1, s[i - 1..])
            == Inserted(lex, s, i) + RepairAfter(lex, SlashesBefore(s, i) % 2 == 1, s[i..])
  {
    var done, c, odd := Inserted(lex, s, i - 1), s[i - 1], SlashesBefore(s, i - 1) % 2 == 1;
    var rest, mark := s[i..], Mark(lex, odd, s[i - 1..]);
    assert s[i - 1..] == [c] + rest;
    assert SlashesBefore(s, i) % 2 == 1 <==> c == '\\' && !odd;
    RepairStep(lex, odd, c, rest);
    var tail := RepairAfter(lex, c == '\\' && !odd, rest);
    Associate(mark, [c], tail);
    Associate(done, mark, [c] + tail);
    Associate(done + mark, [c], tail);
  }

  /** The repair inserts one backslash at the end of every odd run before a known command, and changes nothing else. */
  lemma RepairInsertsExactly(lex: Lexicon, s: string)
    ensures Repair(lex, s) == Inserted(lex, s, |s|)
  {
    RepairedUpTo(lex, s, |s|);
    assert s[|s|..] == "";
  }

  lemma {:induction false} InsertedLength(lex: Lexicon, s: string, i: nat)
    requires i <= |s|
    ensures |Inserted(lex, s, i)| >= i
    ensures |Inserted(lex, s, i)| == i <==> forall k :: 0 <= k < i ==> !Due(lex, s, k)
    ensures |Inserted(lex, s, i)| == i ==> Inserted(lex, s, i) == s[..i]
  {
    if i > 0 {
      InsertedLength(lex, s, i - 1);
      assert Due(lex, s, i - 1) <==> Mark(lex, SlashesBefore(s, i - 1) % 2 == 1, s[i - 1..]) != "";
      assert s[..i] == s[..i - 1] + [s[i - 1]];
    }
  }

  /** Text is unchanged if and only if no odd run stands before a known command. */
  lemma UnchangedExactly(lex: Lexicon, s: string)
    ensures Repair(lex, s) == s <==> forall k :: 0 <= k < |s| ==> !Due(lex, s, k)
  {
    RepairInsertsExactly(lex, s);
    InsertedLength(lex, s, |s|);
    assert s[..|s|] == s;
  }

  // ----- idempotence

  lemma {:induction false} WordKept(lex: Lexicon, s: string)
    ensures LeadingWord(lex, Repair(lex, s)) == LeadingWord(lex, s)
  {
    if s != "" && lex.alpha(s[0]) {
      WordKept(lex, s[1..]);
      assert Repair(lex, s)[1..] == Repair(lex, s[1..]);
    }
  }

  lemma MarkKept(lex: Lexicon, odd: bool, c: char, rest: string)
    ensures Mark(lex, odd, [c] + RepairAfter(lex, c == '\\' && !odd, rest)) == Mark(lex, odd, [c] + rest)
  {
    var tail := RepairAfter(lex, c == '\\' && !odd, rest);
    assert ([c] + tail)[1..] == tail && ([c] + rest)[1..] == rest;
    if odd && lex.alpha(c) {
      WordKept(lex, rest);
    }
  }

  lemma {:induction false} RepairAfterIsIdempotent(lex: Lexicon, odd: bool, s: string)
    ensures RepairAfter(lex, odd, RepairAfter(lex, odd, s)) == RepairAfter(lex, odd, s)
    decreases |s|
  {
    if s != "" {
      var c, rest := s[0], s[1..];
      var next := c == '\\' && !odd;
      RepairAfterIsIdempotent(lex, next, rest);
      assert s == [c] + rest;
      RepairTwice(lex, odd, c, rest, next);
    }
  }

  lemma RepairTwice(lex: Lexicon, odd: bool, c: char, rest: string, next: bool)
    requires next == (c == '\\' && !odd)
    requires RepairAfter(lex, next, RepairAfter(lex, next, rest)) == RepairAfter(lex, next, rest)
    ensures RepairAfter(lex, odd, RepairAfter(lex, odd, [c] + rest)) == RepairAfter(lex, odd, [c] + rest)
  {
    var tail := RepairAfter(lex, next, rest);
    RepairStep(lex, odd, c, rest);
    RepairStep(lex, odd, c, tail);
    if Mark(lex, odd, [c] + rest) == "" {
      MarkKept(lex, odd, c, rest);
    } else {
      RepairStep(lex, odd, '\\', [c] + tail);
      RepairStep(lex, false, c, tail);
      Associate("\\", [c], tail);
    }
  }

  lemma RepairIsIdempotent(lex: Lexicon, s: string)
    ensures Repair(lex, Repair(lex, s)) == Repair(lex, s)
  {
    RepairAfterIsIdempotent(lex, false, s);
  }

  // ----- decoding

  /** One decoded character, or the code unit of a `\u` escape. */
  datatype Unit = Char(c: char) | CodeUnit(hex: string)

  predicate IsHex(c: char)
  {
    IsDigit(c) || 'a' <= c <= 'f' || 'A' <= c <= 'F'
  }

  function SimpleEscape(c: char): Option<char>
  {
    match c
    case '"' => Some('"')
    case '\\' => Some('\\')
    case '/' => Some('/')
    case 'b' => Some('\U{08}')
    case 'f' => Some('\U{0C}')
    case 'n' => Some('\n')
    case 'r' => Some('\r')
    case 't' => Some('\t')
    case _ => None
  }

  /** The first decoded unit of a string body and how many characters it takes. */
  function FirstUnit(s: string): (r: Option<(Unit, nat)>)
    requires s != ""
    ensures r.Some? ==> 0 < r.value.1 <= |s|
  {
    if s[0] == '\\' then
      if |s| < 2 then None
      else if s[1] == 'u' then
        if |s| >= 6 && forall k :: 2 <= k < 6 ==> IsHex(s[k]) then Some((CodeUnit(s[2..6]), 6)) else None
      else if SimpleEscape(s[1]).Some? then Some((Char(SimpleEscape(s[1]).value), 2))
      else None
    else if s[0] == '"' || s[0] < ' ' then None
    else Some((Char(s[0]), 1))
  }

  /** The characters between the quotes of a JSON string (section 7 of RFC 8259), or `None` when malformed. */
  function Decode(s: string): Option<seq<Unit>>
  {
    if s == "" then Some([])
    else
      var first := FirstUnit(s);
      if first.None? then None
      else
        var rest := Decode(s[first.value.1..]);
        if rest.None? then None else Some([first.value.0] + rest.value)
  }

  function Literally(s: string): (u: seq<Unit>)
    ensures |u| == |s| && forall k :: 0 <= k < |s| ==> u[k] == Char(s[k])
  {
    seq(|s|, k requires 0 <= k < |s| => Char(s[k]))
  }

  lemma FirstUnitKept(x: string, y: string)
    requires x != "" && FirstUnit(x).Some?
    ensures FirstUnit(x + y) == FirstUnit(x)
  {
    if x[0] == '\\' && x[1] == 'u' {
      assert (x + y)[2..6] == x[2..6];
    }
  }

  lemma AssociateUnits(a: seq<Unit>, b: seq<Unit>, c: seq<Unit>)
    ensures a + (b + c) == (a + b) + c
  {
  }

  lemma {:induction false} DecodeJoins(x: string, y: string)
    requires Decode(x).Some?
    ensures Decode(x + y) == if Decode(y).Some? then Some(Decode(x).value + Decode(y).value) else None
    decreases |x|
  {
    if x == "" {
      assert x + y == y;
      if Decode(y).Some? {
        assert [] + Decode(y).value == Decode(y).value;
      }
    } else {
      var n := FirstUnit(x).value.1;
      FirstUnitKept(x, y);
      DecodeJoins(x[n..], y);
      assert (x + y)[n..] == x[n..] + y;
      if Decode(y).Some? {
        AssociateUnits([FirstUnit(x).value.0], Decode(x[n..]).value, Decode(y).value);
      }
    }
  }

  lemma {:induction false} DecodeSlashes(n: nat)
    ensures Decode(Slashes(2 * n)) == Some(Literally(Slashes(n)))
  {
    if n > 0 {
      DecodeSlashes(n - 1);
      assert Slashes(2 * n)[2..] == Slashes(2 * (n - 1));
      assert Literally(Slashes(n)) == [Char('\\')] + Literally(Slashes(n - 1));
    }
  }

  lemma {:induction false} DecodeLetters(w: string)
    requires forall k :: 0 <= k < |w| ==> IsLetter(w[k])
    ensures Decode(w) == Some(Literally(w))
  {
    if w != "" {
      DecodeLetters(w[1..]);
      assert Literally(w) == [Char(w[0])] + Literally(w[1..]);
    }
  }

  lemma WordSplits(lex: Lexicon, x: string, y: string)
    requires y == "" || !lex.alpha(y[0])
    ensures LeadingWord(lex, x + y) == LeadingWord(lex, x)
  {
    var s, w := x + y, LeadingWord(lex, x);
    assert |w| < |s| ==> s[|w|] == (if |w| < |x| then x[|w|] else y[0]);
    WordIsMaximal(lex, s, w);
  }

  /** Repairing a text whose second part starts with no letter repairs the two parts. */
  lemma {:induction false} RepairSplits(lex: Lexicon, odd: bool, x: string, y: string)
    requires y == "" || !lex.alpha(y[0])
    ensures RepairAfter(lex, odd, x + y)
            == RepairAfter(lex, odd, x) + RepairAfter(lex, EndsOdd(odd, x), y)
    decreases |x|
  {
    if x == "" {
      assert x + y == y;
    } else {
      var s, next := x + y, x[0] == '\\' && !odd;
      assert s[1..] == x[1..] + y;
      RepairSplits(lex, next, x[1..], y);
      WordSplits(lex, x, y);
      Associate(Mark(lex, odd, x) + [x[0]], RepairAfter(lex, next, x[1..]), RepairAfter(lex, EndsOdd(odd, x), y));
    }
  }

  /** Whether `x` leaves an odd run of backslashes behind. */
  function EndsOdd(odd: bool, x: string): bool
    decreases |x|
  {
    if x == "" then odd else EndsOdd(x[0] == '\\' && !odd, x[1..])
  }

  lemma {:induction false} EndsEven(odd: bool, x: string)
    requires x != "" && x[|x| - 1] != '\\'
    ensures !EndsOdd(odd, x)
    decreases |x|
  {
    if |x| > 1 {
      EndsEven(x[0] == '\\' && !odd, x[1..]);
    }
  }

  /** A marked run has an even length. */
  lemma MarkedRun(lex: Lexicon, n: nat, tail: string)
    requires KnownCommand(lex, tail)
    ensures Slashes(n) + Mark(lex, n % 2 == 1, tail) == Slashes((n + 1) / 2 * 2)
  {
    if n % 2 == 1 {
      SlashesSplit(n + 1);
    } else {
      assert (n + 1) / 2 * 2 == n && Slashes(n) + "" == Slashes(n);
    }
  }

  /** A run of `n` backslashes before a known command, repaired in its context. */
  lemma RepairedCommand(lex: Lexicon, p: string, n: nat, c: string, v: string)
    requires p == "" || p[|p| - 1] != '\\'
    requires n > 0 && c in lex.commands && (v == "" || !lex.alpha(v[0]))
    ensures Repair(lex, p + Slashes(n) + c + v)
            == Repair(lex, p) + Slashes((n + 1) / 2 * 2) + c + Repair(lex, v)
  {
    var tail := c + v;
    var run := Slashes(n) + tail;
    Associate(p + Slashes(n), c, v);
    Associate(p, Slashes(n), tail);
    RepairSplits(lex, false, p, run);
    if p != "" {
      EndsEven(false, p);
    }
    WholeRun(lex, n, tail);
    WordIsMaximal(lex, tail, c);
    WordIsUntouched(lex, c, v);
    MarkedRun(lex, n, tail);
    Associate(Repair(lex, p), Slashes((n + 1) / 2 * 2), c + Repair(lex, v));
    Associate(Repair(lex, p) + Slashes((n + 1) / 2 * 2), c, Repair(lex, v));
  }

  lemma {:induction false} WordIsUntouched(lex: Lexicon, c: string, v: string)
    requires forall k :: 0 <= k < |c| ==> IsLetter(c[k])
    ensures Repair(lex, c + v) == c + Repair(lex, v)
    decreases |c|
  {
    if c == "" {
      assert c + v == v;
    } else {
      assert (c + v)[1..] == c[1..] + v;
      WordIsUntouched(lex, c[1..], v);
      assert [c[0]] + (c[1..] + Repair(lex, v)) == c + Repair(lex, v);
    }
  }

  /** Wherever a known command stands behind backslashes, the repaired text decodes to literal backslashes and the
      command: one for a lone backslash, one for every pair, and one for the odd one left over. */
  lemma CommandsSurviveDecoding(lex: Lexicon, p: string, n: nat, c: string, v: string)
    requires p == "" || p[|p| - 1] != '\\'
    requires n > 0 && c in lex.commands && (v == "" || !lex.alpha(v[0]))
    requires Decode(Repair(lex, p)).Some? && Decode(Repair(lex, v)).Some?
    ensures Decode(Repair(lex, p + Slashes(n) + c + v))
            == Some(Decode(Repair(lex, p)).value + Literally(Slashes((n + 1) / 2)) + Literally(c)
                    + Decode(Repair(lex, v)).value)
  {
    RepairedCommand(lex, p, n, c, v);
    var a, b, d := Repair(lex, p), Slashes(2 * ((n + 1) / 2)), Repair(lex, v);
    DecodeSlashes((n + 1) / 2);
    DecodeLetters(c);
    DecodeJoins(a, b);
    DecodeJoins(a + b, c);
    DecodeJoins(a + b + c, d);
    assert (n + 1) / 2 * 2 == 2 * ((n + 1) / 2);
  }

  /** Without the repair the lone backslash is lost: a command spelt with a `t` decodes to a tab and the rest. */
  lemma UnrepairedTextIsLost(w: string)
    requires forall k :: 0 <= k < |w| ==> IsLetter(w[k])
    ensures Decode(['\\', 't'] + w) == Some([Char('\t')] + Literally(w))
  {
    var s := ['\\', 't'] + w;
    assert FirstUnit(s) == Some((Char('\t'), 2));
    assert s[2..] == w;
    DecodeLetters(w);
  }
}
