/** The bounded prompt view of the Grounding State (valibra_agent/sql_grounding/prompt_view.py). */
module PromptView {
  const HEADER := "[VALIBRA DATABASE GROUNDING]"
  const CLARIFICATIONS := "[USER CLARIFICATIONS]"
  const SECTIONS: seq<string> := ["Tables", "Relations", "Column mappings", "Domain knowledge"]

  /** A rendered item: an answered clarification, or an item of one of the four sections. */
  datatype Item = Clarified(value: string) | Grounded(section: nat, value: string)

  /** Clarifications come first, so that a bounded view drops State items before them. */
  function Items(clarifications: seq<Item>, state: seq<Item>): seq<Item>
  {
    clarifications + state
  }

  // ----- assembly

  function Join(lines: seq<string>): string
    requires lines != []
  {
    if |lines| == 1 then lines[0] else Join(lines[..|lines| - 1]) + "\n" + lines[|lines| - 1]
  }

  function Bullet(value: string): string
  {
    "- " + value
  }

  function ClarifiedLines(items: seq<Item>): seq<string>
  {
    if items == [] then []
    else
      var last := items[|items| - 1];
      ClarifiedLines(items[..|items| - 1]) + (if last.Clarified? then [Bullet(last.value)] else [])
  }

  function SectionLines(items: seq<Item>, section: nat): seq<string>
  {
    if items == [] then []
    else
      var last := items[|items| - 1];
      SectionLines(items[..|items| - 1], section)
      + (if last.Grounded? && last.section == section then [Bullet(last.value)] else [])
  }

  function SectionBlock(items: seq<Item>, section: nat): seq<string>
    requires section < |SECTIONS|
  {
    ["", SECTIONS[section] + ":"] + SectionLines(items, section)
  }

  /** The blocks of the first `n` sections. */
  function SectionBlocks(items: seq<Item>, n: nat): seq<string>
    requires n <= |SECTIONS|
  {
    if n == 0 then [] else SectionBlocks(items, n - 1) + SectionBlock(items, n - 1)
  }

  function Digits(n: nat): string
  {
    if n < 10 then [('0' as int + n) as char] else Digits(n / 10) + [('0' as int + n % 10) as char]
  }

  function OmittedLine(omitted: nat): string
  {
    "... omitted=" + Digits(omitted)
  }

  function Preamble(items: seq<Item>): seq<string>
  {
    [HEADER] + (if ClarifiedLines(items) == [] then [] else ["", CLARIFICATIONS] + ClarifiedLines(items))
  }

  function Lines(items: seq<Item>, omitted: nat): seq<string>
  {
    Preamble(items) + SectionBlocks(items, |SECTIONS|) + (if omitted > 0 then ["", OmittedLine(omitted)] else [])
  }

  function Assemble(items: seq<Item>, omitted: nat): string
  {
    Join(Lines(items, omitted))
  }

  // ----- rendering

  /** `tokens` counts the tokens of a text. */
  datatype Limits = Limits(chars: nat, items: nat, tokenLimit: nat, tokens: string -> nat)

  datatype View = View(text: string, charCount: nat, tokenCount: nat, included: nat, omitted: nat)

  function TextOf(items: seq<Item>, kept: nat): string
    requires kept <= |items|
  {
    Assemble(items[..kept], |items| - kept)
  }

  predicate Fits(items: seq<Item>, limits: Limits, kept: nat)
    requires kept <= |items|
  {
    |TextOf(items, kept)| <= limits.chars && limits.tokens(TextOf(items, kept)) <= limits.tokenLimit
  }

  /** The downward scan: the result is the longest prefix within the item cap that fits both limits, and is empty when
      not even the header fits. */
  method RenderGroundingView(items: seq<Item>, limits: Limits) returns (view: View)
    ensures view.included + view.omitted == |items| && view.included <= limits.items
    ensures forall k :: view.included < k <= |items| && k <= limits.items ==> !Fits(items, limits, k)
    ensures if view.text != "" then Fits(items, limits, view.included) && view.text == TextOf(items, view.included)
            else view.included == 0 && !Fits(items, limits, 0)
    ensures view.charCount == |view.text| && (view.text != "" ==> view.tokenCount == limits.tokens(view.text))
    ensures view.charCount <= limits.chars && (view.text == "" ==> view.tokenCount == 0)
    ensures view.tokenCount <= limits.tokenLimit
  {
    var kept := if |items| < limits.items then |items| else limits.items;
    while true
      invariant 0 <= kept <= |items| && kept <= limits.items
      invariant forall k :: kept < k <= |items| && k <= limits.items ==> !Fits(items, limits, k)
      decreases kept
    {
      var text := Assemble(items[..kept], |items| - kept);
      TextIsNeverEmpty(items, kept);
      var tokenCount := limits.tokens(text);
      if |text| <= limits.chars && tokenCount <= limits.tokenLimit {
        return View(text, |text|, tokenCount, kept, |items| - kept);
      }
      if kept == 0 {
        return View("", 0, 0, 0, |items|);
      }
      kept := kept - 1;
    }
  }

  lemma {:induction false} JoinLength(lines: seq<string>)
    requires lines != []
    ensures |Join(lines)| == Total(lines) + |lines| - 1
  {
    if |lines| > 1 {
      JoinLength(lines[..|lines| - 1]);
    }
  }

  function Total(lines: seq<string>): nat
  {
    if lines == [] then 0 else Total(lines[..|lines| - 1]) + |lines[|lines| - 1]|
  }

  lemma {:induction false} TotalJoins(a: seq<string>, b: seq<string>)
    ensures Total(a + b) == Total(a) + Total(b)
    decreases |b|
  {
    if b == [] {
      assert a + b == a;
    } else {
      assert (a + b)[..|a + b| - 1] == a + b[..|b| - 1];
      TotalJoins(a, b[..|b| - 1]);
    }
  }

  lemma TextIsNeverEmpty(items: seq<Item>, kept: nat)
    requires kept <= |items|
    ensures TextOf(items, kept) != ""
  {
    var shown, omitted := items[..kept], |items| - kept;
    var lines := Lines(shown, omitted);
    JoinLength(lines);
    HeaderCounts(shown, omitted);
  }

  lemma HeaderCounts(items: seq<Item>, omitted: nat)
    ensures Total(Lines(items, omitted)) >= |HEADER|
  {
    var tail := if omitted > 0 then ["", OmittedLine(omitted)] else [];
    var clarified := if ClarifiedLines(items) == [] then [] else ["", CLARIFICATIONS] + ClarifiedLines(items);
    TotalJoins(Preamble(items) + SectionBlocks(items, |SECTIONS|), tail);
    TotalJoins(Preamble(items), SectionBlocks(items, |SECTIONS|));
    TotalJoins([HEADER], clarified);
    assert [HEADER][..0] == [];
  }

  // ----- what a bounded view shows

  /** While a clarification is omitted, no section shows an item; once a State item is shown, every clarification is. */
  lemma ClarificationsComeFirst(clarifications: seq<Item>, state: seq<Item>, kept: nat, section: nat)
    requires kept <= |clarifications| + |state|
    requires forall c :: c in clarifications ==> c.Clarified?
    requires forall s :: s in state ==> s.Grounded?
    ensures kept <= |clarifications| ==> SectionLines(Items(clarifications, state)[..kept], section) == []
    ensures kept >= |clarifications| ==>
              ClarifiedLines(Items(clarifications, state)[..kept]) == ClarifiedLines(clarifications)
  {
    var items := Items(clarifications, state);
    if kept <= |clarifications| {
      assert items[..kept] == clarifications[..kept];
      NoSectionLines(clarifications[..kept], section);
    }
    if kept >= |clarifications| {
      assert items[..kept] == clarifications + state[..kept - |clarifications|];
      ClarifiedPrefix(clarifications, state[..kept - |clarifications|]);
    }
  }

  lemma {:induction false} NoSectionLines(items: seq<Item>, section: nat)
    requires forall i :: i in items ==> i.Clarified?
    ensures SectionLines(items, section) == []
  {
    if items != [] {
      NoSectionLines(items[..|items| - 1], section);
      assert items[|items| - 1] in items;
    }
  }

  lemma {:induction false} ClarifiedPrefix(clarifications: seq<Item>, state: seq<Item>)
    requires forall s :: s in state ==> s.Grounded?
    ensures ClarifiedLines(clarifications + state) == ClarifiedLines(clarifications)
    decreases |state|
  {
    if state == [] {
      assert clarifications + state == clarifications;
    } else {
      var items := clarifications + state;
      assert items[..|items| - 1] == clarifications + state[..|state| - 1];
      ClarifiedPrefix(clarifications, state[..|state| - 1]);
      assert items[|items| - 1] == state[|state| - 1] && state[|state| - 1] in state;
    }
  }

  /** The lines of a part of the view are the bulleted values of its items, in order. */
  lemma {:induction false} LinesInOrder(before: seq<Item>, x: Item, after: seq<Item>, section: nat)
    ensures ClarifiedLines(before + [x] + after)
            == ClarifiedLines(before) + (if x.Clarified? then ["- " + x.value] else []) + ClarifiedLines(after)
    ensures SectionLines(before + [x] + after, section)
            == SectionLines(before, section)
               + (if x.Grounded? && x.section == section then ["- " + x.value] else []) + SectionLines(after, section)
    decreases |after|
  {
    var all := before + [x] + after;
    if after == [] {
      assert all[..|all| - 1] == before;
    } else {
      assert all[..|all| - 1] == before + [x] + after[..|after| - 1];
      assert all[|all| - 1] == after[|after| - 1];
      LinesInOrder(before, x, after[..|after| - 1], section);
    }
  }

  /** Every included clarification is a line of the view, in order. */
  lemma {:induction false} ClarificationsAreLines(items: seq<Item>, i: nat)
    requires i < |items| && forall c :: c in items ==> c.Clarified?
    ensures |ClarifiedLines(items)| == |items| && ClarifiedLines(items)[i] == "- " + items[i].value
    decreases |items|
  {
    var rest := items[..|items| - 1];
    assert items[|items| - 1] in items;
    if rest != [] {
      ClarificationsAreLines(rest, if i < |rest| then i else 0);
    }
  }

  lemma Flatten(pre: seq<string>, a: seq<string>, b: seq<string>, c: seq<string>, d: seq<string>)
    ensures pre + (((a + b) + c) + d) == pre + a + b + c + d
  {
  }

  /** The view is the header, the clarifications if there are any, the four titled sections in their order, and the
      number of omitted items if there are any. */
  lemma ViewLayout(items: seq<Item>, omitted: nat)
    ensures Lines(items, omitted)
            == (["[VALIBRA DATABASE GROUNDING]"]
                + (if ClarifiedLines(items) == [] then [] else ["", "[USER CLARIFICATIONS]"] + ClarifiedLines(items)))
               + (["", "Tables:"] + SectionLines(items, 0)) + (["", "Relations:"] + SectionLines(items, 1))
               + (["", "Column mappings:"] + SectionLines(items, 2)) + (["", "Domain knowledge:"] + SectionLines(items, 3))
               + (if omitted == 0 then [] else ["", "... omitted=" + Digits(omitted)])
  {
    var a, b, c, d := SectionBlock(items, 0), SectionBlock(items, 1), SectionBlock(items, 2), SectionBlock(items, 3);
    assert SectionBlocks(items, 0) == [];
    assert SectionBlocks(items, 1) == [] + a == a;
    assert SectionBlocks(items, 2) == a + b;
    assert SectionBlocks(items, 3) == (a + b) + c;
    assert SectionBlocks(items, 4) == ((a + b) + c) + d;
    Flatten(Preamble(items), a, b, c, d);
    assert SECTIONS[0] + ":" == "Tables:" && SECTIONS[1] + ":" == "Relations:";
    assert SECTIONS[2] + ":" == "Column mappings:" && SECTIONS[3] + ":" == "Domain knowledge:";
  }

  /** The number a run of decimal digits stands for. */
  function NumberOf(digits: string): int
  {
    if digits == "" then 0 else 10 * NumberOf(digits[..|digits| - 1]) + (digits[|digits| - 1] as int - '0' as int)
  }

  lemma {:induction false} DigitsMean(n: nat)
    ensures NumberOf(Digits(n)) == n && forall c :: c in Digits(n) ==> '0' <= c <= '9'
  {
    if n >= 10 {
      DigitsMean(n / 10);
      assert Digits(n)[..|Digits(n)| - 1] == Digits(n / 10);
    } else {
      assert Digits(n)[..0] == "";
    }
  }

  /** The lines are separated by line breaks, and joining loses none of them. */
  lemma JoinOfOneMore(lines: seq<string>, line: string)
    requires lines != []
    ensures Join(lines + [line]) == Join(lines) + "\n" + line && Join([line]) == line
  {
    assert (lines + [line])[..|lines|] == lines;
  }

  // ----- the length is not monotone

  lemma SectionGrows(items: seq<Item>, x: Item, section: nat)
    requires x.Grounded? && section < |SECTIONS|
    ensures SectionBlock(items + [x], section)
            == SectionBlock(items, section) + (if x.section == section then [Bullet(x.value)] else [])
  {
    assert (items + [x])[..|items|] == items;
  }

  lemma TotalOfOne(line: string)
    ensures Total([line]) == |line|
  {
    assert [line][..0] == [];
  }

  lemma {:induction false} OneItemMore(items: seq<Item>, x: Item, n: nat)
    requires x.Grounded? && n <= |SECTIONS|
    ensures var before, after := SectionBlocks(items, n), SectionBlocks(items + [x], n);
            if x.section < n then Total(after) == Total(before) + |Bullet(x.value)| && |after| == |before| + 1
            else Total(after) == Total(before) && |after| == |before|
    decreases n
  {
    if n > 0 {
      OneItemMore(items, x, n - 1);
      SectionGrows(items, x, n - 1);
      var before, after := SectionBlock(items, n - 1), SectionBlock(items + [x], n - 1);
      TotalJoins(SectionBlocks(items, n - 1), before);
      TotalJoins(SectionBlocks(items + [x], n - 1), after);
      if x.section == n - 1 {
        TotalJoins(before, [Bullet(x.value)]);
        TotalOfOne(Bullet(x.value));
      } else {
        assert after == before;
      }
    }
  }

  lemma TotalOfLines(items: seq<Item>, omitted: nat)
    ensures Total(Lines(items, omitted))
            == Total(Preamble(items)) + Total(SectionBlocks(items, |SECTIONS|))
               + (if omitted > 0 then |OmittedLine(omitted)| else 0)
  {
    var body := Preamble(items) + SectionBlocks(items, |SECTIONS|);
    TotalJoins(Preamble(items), SectionBlocks(items, |SECTIONS|));
    if omitted > 0 {
      var tail := ["", OmittedLine(omitted)];
      TotalJoins(body, tail);
      assert tail[..1] == [""] && [""][..0] == [];
      assert Total([""]) == 0;
    } else {
      assert Lines(items, 0) == body;
    }
  }

  /** Showing the last State item removes the omitted line: the longer prefix is the shorter text exactly when the
      item's value is shorter than twelve characters. Fitting is therefore not monotone in the prefix. */
  lemma LastItemMayShorten(items: seq<Item>, x: Item)
    requires x.Grounded? && x.section < |SECTIONS|
    ensures |Assemble(items + [x], 0)| < |Assemble(items, 1)| <==> |x.value| < 12
  {
    var more := items + [x];
    assert more[..|more| - 1] == items;
    assert Preamble(more) == Preamble(items);
    OneItemMore(items, x, |SECTIONS|);
    TotalOfLines(more, 0);
    TotalOfLines(items, 1);
    JoinLength(Lines(more, 0));
    JoinLength(Lines(items, 1));
    assert |OmittedLine(1)| == 13;
  }
}
