/** The terminal: which events and blocks it shows, and how a paragraph is cut into chips. */
module AgentTerminal {
  import opened Options
  import opened SeenEvents
  import opened Sequences
  import opened Sorting

  const MAX_BLOCKS := 120
  const REPEAT_WINDOW := 6

  // ---- Showing each event once -------------------------------------------------------------

  datatype Content =
    | Paragraph(text: string)
    | Code(path: string, code: string)
    | CommitLine(href: Option<string>, message: string)

  datatype Block = Block(content: Content, eventId: Option<string>)

  function Fingerprint(b: Block): string {
    match b.content
    case Paragraph(text) => "p:" + text
    case Code(path, code) => "c:" + path + ":" + code
    case CommitLine(href, message) => "m:" + (if href.Some? then href.value else "") + ":" + message
  }

  /** Blocks of different kinds never look alike; of one kind, what is shown of them decides. */
  lemma FingerprintTellsApart(a: Block, b: Block)
    ensures Fingerprint(a) == Fingerprint(b) ==>
              (a.content.Paragraph? <==> b.content.Paragraph?) && (a.content.Code? <==> b.content.Code?)
    ensures a.content.Paragraph? && b.content.Paragraph? ==>
              (Fingerprint(a) == Fingerprint(b) <==> a.content.text == b.content.text)
    ensures a.content.Code? && b.content.Code? && a.content.path == b.content.path ==>
              (Fingerprint(a) == Fingerprint(b) <==> a.content.code == b.content.code)
    ensures a.content.CommitLine? && b.content.CommitLine? && a.content.href == b.content.href ==>
              (Fingerprint(a) == Fingerprint(b) <==> a.content.message == b.content.message)
    ensures a.content.Code? && b.content.Code? && a.content.code == b.content.code ==>
              (Fingerprint(a) == Fingerprint(b) <==> a.content.path == b.content.path)
  {
    assert Fingerprint(a)[0] == if a.content.Paragraph? then 'p' else if a.content.Code? then 'c' else 'm';
    assert Fingerprint(b)[0] == if b.content.Paragraph? then 'p' else if b.content.Code? then 'c' else 'm';
    match (a.content, b.content) {
      case (Paragraph(x), Paragraph(y)) => AffixesCancel("p:", x, y, "");
      case (Code(p, x), Code(q, y)) =>
        AffixesCancel("c:" + p + ":", x, y, "");
        AffixesCancel("c:", p, q, ":" + x);
        assert "c:" + p + ":" + x == "c:" + p + (":" + x) && "c:" + q + ":" + x == "c:" + q + (":" + x);
      case (CommitLine(h, x), CommitLine(_, y)) =>
        AffixesCancel("m:" + (if h.Some? then h.value else "") + ":", x, y, "");
      case _ =>
    }
  }

  lemma AffixesCancel(before: string, x: string, y: string, after: string)
    ensures before + x + after == before + y + after <==> x == y
    ensures after == "" ==> before + x + after == before + x && before + y + after == before + y
  {
    if before + x + after == before + y + after {
      var s, t := before + x + after, before + y + after;
      assert |x| == |y|;
      assert x == s[|before|..|before| + |x|] && y == t[|before|..|before| + |x|];
    }
  }

  predicate IsRepeated(blocks: seq<Block>, b: Block) {
    exists shown | shown in Last(blocks, REPEAT_WINDOW) :: Fingerprint(shown) == Fingerprint(b)
  }

  function Shown(blocks: seq<Block>, b: Block): seq<Block> {
    if IsRepeated(blocks, b) then blocks else Last(blocks + [b], MAX_BLOCKS)
  }

  /**
   * A block that looks like one of the last six is dropped; any other is shown last, and of all of
   * them no more than the last 120.
   */
  lemma ShownExactly(blocks: seq<Block>, b: Block)
    ensures var repeated := exists i | 0 <= i < |blocks| && i >= |blocks| - 6 ::
                              Fingerprint(blocks[i]) == Fingerprint(b);
            var shown, all := Shown(blocks, b), blocks + [b];
            && (repeated ==> shown == blocks)
            && (!repeated ==> shown == if |all| <= 120 then all else all[|all| - 120..])
  {
    var tail := Last(blocks, 6);
    assert forall i | 0 <= i < |tail| :: tail[i] == blocks[|blocks| - |tail| + i];
    forall i | 0 <= i < |blocks| && i >= |blocks| - 6 ensures blocks[i] in tail {
      assert tail[i - (|blocks| - |tail|)] == blocks[i];
    }
  }

  predicate HasEvent(b: Block) {
    b.eventId.Some? && b.eventId.value != ""
  }

  // No two blocks within six of each other look the same.
  ghost predicate NoNearRepeats(blocks: seq<Block>) {
    forall i, j | 0 <= i < j < |blocks| && j - i <= 6 :: Fingerprint(blocks[i]) != Fingerprint(blocks[j])
  }

  function EventIds(blocks: seq<Block>): seq<string> {
    if blocks == [] then []
    else (if HasEvent(blocks[0]) then [blocks[0].eventId.value] else []) + EventIds(blocks[1..])
  }

  lemma {:induction false} EventIdsAreFew(blocks: seq<Block>)
    ensures |EventIds(blocks)| <= |blocks|
  {
    if blocks != [] {
      EventIdsAreFew(blocks[1..]);
    }
  }

  /** Showing a block keeps near blocks different, also when the oldest fall off. */
  lemma ShownKeepsNoNearRepeats(blocks: seq<Block>, b: Block)
    requires NoNearRepeats(blocks)
    ensures NoNearRepeats(Shown(blocks, b))
    ensures |blocks| <= 120 ==> |Shown(blocks, b)| <= 120
  {
    if !IsRepeated(blocks, b) {
      var all := blocks + [b];
      forall i, j | 0 <= i < j < |all| && j - i <= REPEAT_WINDOW ensures Fingerprint(all[i]) != Fingerprint(all[j]) {
        if j == |blocks| {
          var tail := Last(blocks, REPEAT_WINDOW);
          assert tail[i - (|blocks| - |tail|)] == blocks[i];
        }
      }
    }
  }

  datatype Screen = Screen(blocks: seq<Block>, index: Index)

  function Append(s: Screen, b: Block): Screen {
    if HasEvent(b) && b.eventId.value in s.index.seen then s
    else Screen(Shown(s.blocks, b), if HasEvent(b) then Remember(s.index, b.eventId.value) else s.index)
  }

  function AppendAll(s: Screen, bs: seq<Block>): Screen
    decreases |bs|
  {
    if bs == [] then s else AppendAll(Append(s, bs[0]), bs[1..])
  }

  /** Blocks without an event, or with an empty id, are shown by their looks alone and remembered by none. */
  lemma NoEventNoMemory(s: Screen, b: Block)
    requires b.eventId == None || b.eventId == Some("")
    ensures Append(s, b) == Screen(Shown(s.blocks, b), s.index)
  {
  }

  // ---- What a saved screen can be restored from --------------------------------------------

  // `a` is `b` with some ids left out.
  ghost predicate Subsequence(a: seq<string>, b: seq<string>) {
    a == [] || (b != [] && (Subsequence(a, b[1..]) || (a[0] == b[0] && Subsequence(a[1..], b[1..]))))
  }

  lemma {:induction false} SubsequenceOfItself(a: seq<string>)
    ensures Subsequence(a, a)
  {
    if a != [] {
      SubsequenceOfItself(a[1..]);
    }
  }

  lemma {:induction false} SubsequenceGrows(a: seq<string>, b: seq<string>, id: string)
    requires Subsequence(a, b)
    ensures Subsequence(a, b + [id]) && Subsequence(a + [id], b + [id])
  {
    if b == [] {
      assert [] + [id] == [id] && [id][1..] == [];
    } else {
      assert (b + [id])[1..] == b[1..] + [id];
      if Subsequence(a, b[1..]) {
        SubsequenceGrows(a, b[1..], id);
      } else if a != [] {
        SubsequenceGrows(a[1..], b[1..], id);
        assert (a + [id])[1..] == a[1..] + [id];
      }
    }
  }

  lemma {:induction false} SubsequenceDrops(a: seq<string>, b: seq<string>)
    requires a != [] && Subsequence(a, b)
    ensures Subsequence(a[1..], b)
  {
    if Subsequence(a, b[1..]) {
      SubsequenceDrops(a, b[1..]);
    }
  }

  lemma {:induction false} SubsequenceIsDistinct(a: seq<string>, b: seq<string>)
    requires Subsequence(a, b) && Distinct(b)
    ensures Distinct(a) && forall id | id in a :: id in b
  {
    if a != [] {
      var a', b' := a[1..], b[1..];
      assert forall i | 0 <= i < |b'| :: b'[i] == b[i + 1];
      if Subsequence(a, b') {
        SubsequenceIsDistinct(a, b');
      } else {
        SubsequenceIsDistinct(a', b');
        assert forall i | 0 <= i < |a'| :: a'[i] == a[i + 1] && a'[i] in a';
        assert b[0] !in b';
      }
    }
  }

  lemma {:induction false} EventIdsOfMore(blocks: seq<Block>, b: Block)
    ensures EventIds(blocks + [b]) == EventIds(blocks) + if HasEvent(b) then [b.eventId.value] else []
  {
    if blocks == [] {
      assert [] + [b] == [b];
    } else {
      EventIdsOfMore(blocks[1..], b);
      assert (blocks + [b])[1..] == blocks[1..] + [b];
    }
  }

  lemma {:induction false} EventIdsOfFewer(blocks: seq<Block>, n: nat, accepted: seq<string>)
    requires n <= |blocks| && Subsequence(EventIds(blocks), accepted)
    ensures Subsequence(EventIds(blocks[n..]), accepted)
  {
    if n == 0 {
      assert blocks[0..] == blocks;
    } else {
      var ids, rest := EventIds(blocks), EventIds(blocks[1..]);
      if ids != rest {
        SubsequenceDrops(ids, accepted);
        assert ids[1..] == rest;
      }
      EventIdsOfFewer(blocks[1..], n - 1, accepted);
      assert blocks[1..][n - 1..] == blocks[n..];
    }
  }

  /** The ids of the blocks shown stay among the accepted ids, in their order. */
  lemma ShownKeepsIds(blocks: seq<Block>, b: Block, accepted: seq<string>)
    requires Subsequence(EventIds(blocks), accepted)
    ensures var id := if HasEvent(b) then [b.eventId.value] else [];
            Subsequence(EventIds(Shown(blocks, b)), accepted + id)
  {
    EventIdsOfMore(blocks, b);
    if HasEvent(b) {
      SubsequenceGrows(EventIds(blocks), accepted, b.eventId.value);
    } else {
      assert accepted + [] == accepted;
      assert EventIds(blocks) + [] == EventIds(blocks);
    }
    var all, ids := blocks + [b], accepted + if HasEvent(b) then [b.eventId.value] else [];
    if |all| > MAX_BLOCKS {
      EventIdsOfFewer(all, |all| - MAX_BLOCKS, ids);
    }
  }

  lemma {:induction false} RepeatsOnlyCount(s: Screen, p: Block, ids: seq<string>)
    requires s.blocks == [p] && Accepts(s.index, ids) && forall id | id in ids :: id != ""
    ensures var bs := seq(|ids|, i requires 0 <= i < |ids| => Block(p.content, Some(ids[i])));
            AppendAll(s, bs) == Screen([p], RememberAll(s.index, ids))
    decreases |ids|
  {
    var bs := seq(|ids|, i requires 0 <= i < |ids| => Block(p.content, Some(ids[i])));
    if ids != [] {
      hide Remember, Fingerprint;
      var s1 := Append(s, bs[0]);
      SameContentSamePrint(p, bs[0]);
      assert ids[0] in ids && s.blocks[0] in Last(s.blocks, REPEAT_WINDOW);
      assert forall id | id in ids[1..] :: id in ids;
      assert s1 == Screen([p], Remember(s.index, ids[0]));
      RepeatsOnlyCount(s1, p, ids[1..]);
      assert bs[1..] == seq(|ids[1..]|, i requires 0 <= i < |ids[1..]| => Block(p.content, Some(ids[1..][i])));
    }
  }

  lemma SameContentSamePrint(a: Block, b: Block)
    requires a.content == b.content
    ensures Fingerprint(a) == Fingerprint(b)
  {
  }

  lemma {:induction false} AppendAllThen(s: Screen, bs: seq<Block>, b: Block)
    ensures AppendAll(s, bs + [b]) == Append(AppendAll(s, bs), b)
    decreases |bs|
  {
    if bs == [] {
      assert [] + [b] == [b] && [b][1..] == [];
    } else {
      AppendAllThen(Append(s, bs[0]), bs[1..], b);
      assert (bs + [b])[1..] == bs[1..] + [b];
    }
  }

  lemma FirstShown(id: string, text: string)
    requires id != ""
    ensures var p := Block(Paragraph(text), Some(id));
            Append(Screen([], Restored([])), p) == Screen([p], Restored([id]))
  {
    RememberDropsOne(Restored([]), id);
    assert [] + [Block(Paragraph(text), Some(id))] == [Block(Paragraph(text), Some(id))];
  }

  /**
   * A screen can come to show one id twice: 1500 events whose blocks are dropped as repeats push
   * the id out of the index while its block stays, and then the id is accepted again.
   */
  lemma ShownIdsCanRepeat() returns (bs: seq<Block>)
    ensures var s := AppendAll(Screen([], Restored([])), bs);
            EventIds(s.blocks) == ["a", "a"] && Agrees(s.index)
  {
    var p, q := Block(Paragraph("p"), Some("a")), Block(Paragraph("q"), Some("a"));
    var ids := Fillers(2, SEEN_CAP);
    var repeats := seq(|ids|, i requires 0 <= i < |ids| => Block(p.content, Some(ids[i])));
    bs := [p] + (repeats + [q]);
    var s0, s1 := Screen([], Restored([])), Screen([p], Restored(["a"]));
    FirstShown("a", "p");
    assert bs[1..] == repeats + [q];
    assert Longest(["a"]) <= 1 by { assert ["a"][1..] == []; }
    FillersAreNew(["a"], 2, SEEN_CAP);
    NewIdsAreAccepted(s1.index, ids);
    RepeatsOnlyCount(s1, p, ids);
    AppendAllThen(s1, repeats, q);
    DistinctIdsAgree(s1.index, ids);
    var index := RememberAll(s1.index, ids);
    assert index.order == ids by { assert (["a"] + ids)[1..] == ids; }
    SecondShown(index, p, q);
  }

  lemma SecondShown(index: Index, p: Block, q: Block)
    requires p == Block(Paragraph("p"), Some("a")) && q == Block(Paragraph("q"), Some("a"))
    requires |index.order| <= SEEN_CAP && Agrees(index) && Distinct(index.order) && "a" !in index.order
    ensures var s := Append(Screen([p], index), q); EventIds(s.blocks) == ["a", "a"] && Agrees(s.index)
  {
    RememberKeepsAgreement(index, "a");
    assert Fingerprint(p)[2] != Fingerprint(q)[2];
    assert [p] + [q] == [p, q] && [p, q][1..] == [q] && [q][1..] == [];
    assert EventIds([q]) == ["a"];
  }

  // ---- The terminal as it runs -------------------------------------------------------------

  class Terminal {
    var blocks: seq<Block>
    var seenIds: set<string>
    var seenOrder: seq<string>
    ghost var accepted: seq<string>

    function Value(): Screen
      reads this
    {
      Screen(blocks, Index(seenIds, seenOrder))
    }

    // The set is the queue's elements, and the queue the last 1500 accepted ids, without repeats.
    ghost predicate Valid()
      reads this
    {
      && seenIds == Elements(seenOrder)
      && Distinct(seenOrder)
      && seenOrder == Last(accepted, 1500)
      && NoNearRepeats(blocks)
      && |blocks| <= 120
      && Subsequence(EventIds(blocks), accepted)
    }

    // Restored from whatever blocks the cache holds.
    constructor (cached: seq<Block>)
      ensures blocks == Last(cached, 120) && accepted == EventIds(blocks)
      ensures Value().index == Restored(accepted)
      ensures Valid() <==> Distinct(EventIds(blocks)) && NoNearRepeats(blocks)
    {
      var shown := Last(cached, MAX_BLOCKS);
      EventIdsAreFew(shown);
      var ids := EventIds(shown);
      SubsequenceOfItself(ids);
      blocks, seenOrder, accepted := shown, ids, ids;
      seenIds := set id | id in ids;
    }

    /** Saving a terminal and restoring it: sound if and only if no id is shown twice, so for 1500 ids at least. */
    method Reload() returns (t: Terminal)
      requires Valid()
      ensures fresh(t) && t.blocks == blocks
      ensures t.Valid() <==> Distinct(EventIds(blocks))
      ensures |accepted| <= 1500 ==> t.Valid()
    {
      t := new Terminal(blocks);
      if |accepted| <= SEEN_CAP {
        SubsequenceIsDistinct(EventIds(blocks), accepted);
      }
    }

    method AppendBlock(b: Block)
      modifies this
      ensures Value() == Append(old(Value()), b)
      ensures old(Valid()) ==>
                var refused := HasEvent(b) && b.eventId.value in Last(old(accepted), 1500);
                && Valid()
                && (refused ==> blocks == old(blocks) && accepted == old(accepted))
                && (!refused ==> blocks == Shown(old(blocks), b))
                && (!refused ==> accepted == old(accepted) + if HasEvent(b) then [b.eventId.value] else [])
    {
      if HasEvent(b) && b.eventId.value in seenIds {
        return;
      }
      ghost var was := Index(seenIds, seenOrder);
      if NoNearRepeats(blocks) { ShownKeepsNoNearRepeats(blocks, b); }
      if Subsequence(EventIds(blocks), accepted) { ShownKeepsIds(blocks, b, accepted); }
      blocks := Shown(blocks, b);
      if HasEvent(b) {
        RememberEvent(b.eventId.value);
        if old(Valid()) {
          RememberKeepsAgreement(was, b.eventId.value);
          RememberDropsOne(was, b.eventId.value);
          LastOfLast(old(accepted), [b.eventId.value], SEEN_CAP);
        }
      } else {
        assert accepted + [] == accepted;
      }
    }

    method RememberEvent(id: string)
      modifies this`seenIds, this`seenOrder, this`accepted
      ensures Value().index == Remember(old(Value().index), id)
      ensures accepted == old(accepted) + [id]
    {
      seenIds := seenIds + {id};
      seenOrder := seenOrder + [id];
      accepted := accepted + [id];
      while |seenOrder| > SEEN_CAP
        invariant Forget(Index(seenIds, seenOrder)) == Remember(old(Value().index), id)
        invariant accepted == old(accepted) + [id]
      {
        var stale := seenOrder[0];
        seenOrder := seenOrder[1..];
        seenIds := seenIds - {stale};
      }
    }
  }

  // ---- Cutting a paragraph into chips ------------------------------------------------------

  datatype Chip = Chip(at: nat, length: nat)

  datatype Part = Plain(text: string) | ChipText(text: string)

  function Min(a: nat, b: nat): nat {
    if a < b then a else b
  }

  // `text.slice(from, to)`: both ends are cut to the text.
  function Slice(text: string, from: nat, to: nat): string {
    if Min(from, |text|) <= Min(to, |text|) then text[Min(from, |text|)..Min(to, |text|)] else ""
  }

  predicate StartsBefore(a: Chip, b: Chip) {
    a.at < b.at
  }

  function Parts(text: string, chips: seq<Chip>, cursor: nat): seq<Part> {
    if chips == [] then (if cursor < |text| then [Plain(text[cursor..])] else [])
    else
      var chip := chips[0];
      (if chip.at > cursor then [Plain(Slice(text, cursor, chip.at))] else [])
      + [ChipText(Slice(text, chip.at, chip.at + chip.length))]
      + Parts(text, chips[1..], chip.at + chip.length)
  }

  function RenderParagraph(text: string, chips: seq<Chip>): seq<Part> {
    if chips == [] then [Plain(text)] else Parts(text, Sort(chips, StartsBefore), 0)
  }

  function Text(parts: seq<Part>): string {
    if parts == [] then "" else parts[0].text + Text(parts[1..])
  }

  // Within the text, every chip starts no earlier than the chip before it ends.
  ghost predicate Apart(text: string, chips: seq<Chip>) {
    forall i | 0 < i < |chips| ::
      Min(chips[i - 1].at + chips[i - 1].length, |text|) <= Min(chips[i].at, |text|)
  }

  lemma {:induction false} TextConcat(a: seq<Part>, b: seq<Part>)
    ensures Text(a + b) == Text(a) + Text(b)
  {
    if a == [] {
      assert a + b == b;
    } else {
      TextConcat(a[1..], b);
      assert (a + b)[0] == a[0] && (a + b)[1..] == a[1..] + b;
      var head, rest, last := a[0].text, Text(a[1..]), Text(b);
      assert Text(a + b) == head + (rest + last) == (head + rest) + last;
    }
  }

  lemma GapText(text: string, cursor: nat, at: nat)
    ensures Text(if at > cursor then [Plain(Slice(text, cursor, at))] else []) == Slice(text, cursor, at)
  {
    if at > cursor {
      OnePart(Plain(Slice(text, cursor, at)));
    }
  }

  lemma OnePart(p: Part)
    ensures Text([p]) == p.text
  {
    assert [p][1..] == [];
  }

  lemma PartsText(text: string, chips: seq<Chip>, cursor: nat)
    requires chips != []
    ensures var chip := chips[0];
            Text(Parts(text, chips, cursor)) ==
            Slice(text, cursor, chip.at) + Slice(text, chip.at, chip.at + chip.length)
            + Text(Parts(text, chips[1..], chip.at + chip.length))
  {
    var chip := chips[0];
    var head := if chip.at > cursor then [Plain(Slice(text, cursor, chip.at))] else [];
    var mid := ChipText(Slice(text, chip.at, chip.at + chip.length));
    var tail := Parts(text, chips[1..], chip.at + chip.length);
    assert Parts(text, chips, cursor) == head + [mid] + tail;
    GapText(text, cursor, chip.at);
    OnePart(mid);
    hide Text, Slice, Parts;
    TextConcat(head + [mid], tail);
    TextConcat(head, [mid]);
  }

  function ChipTexts(parts: seq<Part>): seq<string> {
    if parts == [] then []
    else (if parts[0].ChipText? then [parts[0].text] else []) + ChipTexts(parts[1..])
  }

  lemma {:induction false} ChipTextsConcat(a: seq<Part>, b: seq<Part>)
    ensures ChipTexts(a + b) == ChipTexts(a) + ChipTexts(b)
  {
    if a == [] {
      assert a + b == b;
    } else {
      ChipTextsConcat(a[1..], b);
      assert (a + b)[0] == a[0] && (a + b)[1..] == a[1..] + b;
      var head, rest, last := if a[0].ChipText? then [a[0].text] else [], ChipTexts(a[1..]), ChipTexts(b);
      assert ChipTexts(a + b) == head + (rest + last) == (head + rest) + last;
    }
  }

  lemma ChipTextsOfOne(p: Part)
    ensures ChipTexts([p]) == if p.ChipText? then [p.text] else []
  {
    assert [p][1..] == [];
  }

  lemma ChipTextsStep(text: string, chips: seq<Chip>, cursor: nat)
    requires chips != []
    ensures var end := chips[0].at + chips[0].length;
            ChipTexts(Parts(text, chips, cursor))
            == [Slice(text, chips[0].at, end)] + ChipTexts(Parts(text, chips[1..], end))
  {
    var chip := chips[0];
    var head := if chip.at > cursor then [Plain(Slice(text, cursor, chip.at))] else [];
    var mid := ChipText(Slice(text, chip.at, chip.at + chip.length));
    var rest := Parts(text, chips[1..], chip.at + chip.length);
    assert Parts(text, chips, cursor) == head + [mid] + rest;
    if chip.at > cursor { ChipTextsOfOne(Plain(Slice(text, cursor, chip.at))); }
    assert ChipTexts(head) == [];
    ChipTextsOfOne(mid);
    hide ChipTexts, Slice, Parts;
    ChipTextsConcat(head + [mid], rest);
    ChipTextsConcat(head, [mid]);
  }

  function Stretches(text: string, chips: seq<Chip>): seq<string> {
    seq(|chips|, i requires 0 <= i < |chips| => Slice(text, chips[i].at, chips[i].at + chips[i].length))
  }

  lemma StretchesCons(text: string, chips: seq<Chip>)
    requires chips != []
    ensures Stretches(text, chips)
            == [Slice(text, chips[0].at, chips[0].at + chips[0].length)] + Stretches(text, chips[1..])
  {
    hide Slice;
  }

  /** The marked parts are the chips' own stretches of the text, one a chip, in start order. */
  lemma {:induction false} ChipsAreMarked(text: string, chips: seq<Chip>, cursor: nat)
    ensures ChipTexts(Parts(text, chips, cursor)) == Stretches(text, chips)
    decreases |chips|
  {
    hide Slice, Stretches;
    if chips == [] {
      NoChipsNoMarks(text, cursor);
    } else {
      hide ChipTexts, Parts;
      ChipTextsStep(text, chips, cursor);
      StretchesCons(text, chips);
      ChipsAreMarked(text, chips[1..], chips[0].at + chips[0].length);
    }
  }

  lemma NoChipsNoMarks(text: string, cursor: nat)
    ensures ChipTexts(Parts(text, [], cursor)) == [] == Stretches(text, [])
  {
    if cursor < |text| { ChipTextsOfOne(Plain(text[cursor..])); }
  }

  // The cursor and the chips after it are apart.
  ghost predicate ApartFrom(text: string, chips: seq<Chip>, cursor: nat) {
    Apart(text, chips) && (chips != [] ==> Min(cursor, |text|) <= Min(chips[0].at, |text|))
  }

  lemma SlicesJoin(text: string, cursor: nat, at: nat, end: nat)
    requires at <= end
    ensures var gap, chip, n := Slice(text, cursor, at), Slice(text, at, end), |text|;
            && (Min(cursor, n) <= Min(at, n) ==> gap + chip + text[Min(end, n)..] == text[Min(cursor, n)..])
            && |gap| + |chip| + (n - Min(end, n)) >= n - Min(cursor, n)
            && (Min(at, n) < Min(cursor, n) ==> |gap| + |chip| + (n - Min(end, n)) > n - Min(cursor, n))
  {
  }

  lemma ExactStep(text: string, cursor: nat, at: nat, end: nat, tail: string, tailIsExact: bool)
    requires at <= end
    requires if tailIsExact then tail == text[Min(end, |text|)..] else |tail| > |text| - Min(end, |text|)
    ensures var whole := Slice(text, cursor, at) + Slice(text, at, end) + tail;
            if tailIsExact && Min(cursor, |text|) <= Min(at, |text|) then whole == text[Min(cursor, |text|)..]
            else |whole| > |text| - Min(cursor, |text|)
  {
    hide Slice;
    SlicesJoin(text, cursor, at, end);
  }

  // What the parts from a cursor on should be, and what they are too long for if they are not.
  ghost predicate Exact(text: string, chips: seq<Chip>, cursor: nat) {
    var rest := text[Min(cursor, |text|)..];
    if ApartFrom(text, chips, cursor) then Text(Parts(text, chips, cursor)) == rest
    else |Text(Parts(text, chips, cursor))| > |rest|
  }

  lemma PartsStep(text: string, chips: seq<Chip>, cursor: nat)
    requires chips != [] && Exact(text, chips[1..], chips[0].at + chips[0].length)
    ensures Exact(text, chips, cursor)
  {
    hide Parts, Text, Slice, ApartFrom, Apart;
    var at, end, apart := chips[0].at, chips[0].at + chips[0].length, Apart(text, chips);
    PartsText(text, chips, cursor);
    ApartUnfold(text, chips);
    var tail := Text(Parts(text, chips[1..], end));
    hide Min;
    ExactStep(text, cursor, at, end, tail, apart);
  }

  /** From a cursor on: apart chips give back the rest of the text, others give more than that. */
  lemma {:induction false} PartsAreExact(text: string, chips: seq<Chip>, cursor: nat)
    ensures Exact(text, chips, cursor)
    decreases |chips|
  {
    hide Exact;
    if chips == [] {
      NoChipsAreExact(text, cursor);
    } else {
      PartsAreExact(text, chips[1..], chips[0].at + chips[0].length);
      PartsStep(text, chips, cursor);
    }
  }

  lemma NoChipsAreExact(text: string, cursor: nat)
    ensures Exact(text, [], cursor)
  {
    if cursor < |text| {
      OnePart(Plain(text[cursor..]));
    }
  }

  lemma ApartUnfold(text: string, chips: seq<Chip>)
    requires chips != []
    ensures Apart(text, chips) <==> ApartFrom(text, chips[1..], chips[0].at + chips[0].length)
    ensures forall cursor :: ApartFrom(text, chips, cursor) <==>
              Apart(text, chips) && Min(cursor, |text|) <= Min(chips[0].at, |text|)
  {
    var rest := chips[1..];
    assert forall i | 0 < i < |rest| :: rest[i] == chips[i + 1] && rest[i - 1] == chips[i];
    if ApartFrom(text, rest, chips[0].at + chips[0].length) {
      forall i | 0 < i < |chips|
        ensures Min(chips[i - 1].at + chips[i - 1].length, |text|) <= Min(chips[i].at, |text|)
      {
        if 1 < i { assert rest[i - 1] == chips[i] && rest[i - 2] == chips[i - 1]; }
      }
    }
    if Apart(text, chips) {
      forall i | 0 < i < |rest|
        ensures Min(rest[i - 1].at + rest[i - 1].length, |text|) <= Min(rest[i].at, |text|)
      {
        assert chips[i + 1] == rest[i] && chips[i] == rest[i - 1];
      }
    }
  }

  /**
   * The rendered parts spell the text exactly when, within the text, no chip in start order begins
   * before the previous one ends, in whatever order the chips were given.
   */
  lemma RenderIsExact(text: string, chips: seq<Chip>)
    ensures Text(RenderParagraph(text, chips)) == text <==> Apart(text, Sort(chips, StartsBefore))
  {
    if chips == [] {
      assert Text([Plain(text)]) == text + Text([]);
    } else {
      PartsAreExact(text, Sort(chips, StartsBefore), 0);
      assert text[0..] == text;
    }
  }

  ghost predicate Disjoint(a: Chip, b: Chip) {
    a.at + a.length <= b.at || b.at + b.length <= a.at
  }

  ghost predicate PairwiseApart(chips: seq<Chip>) {
    forall i, j | 0 <= i < j < |chips| :: Disjoint(chips[i], chips[j])
  }

  lemma {:induction false} InsertKeepsDisjoint(x: Chip, sorted: seq<Chip>)
    requires PairwiseApart(sorted) && forall c | c in sorted :: Disjoint(x, c)
    ensures PairwiseApart(Insert(x, sorted, StartsBefore))
    ensures forall c :: c in Insert(x, sorted, StartsBefore) <==> c == x || c in sorted
  {
    var out := Insert(x, sorted, StartsBefore);
    if sorted == [] || !StartsBefore(sorted[0], x) {
      assert forall i | 0 < i < |out| :: out[i] == sorted[i - 1] && out[i] in sorted;
    } else {
      var rest := sorted[1..];
      assert forall i | 0 <= i < |rest| :: rest[i] == sorted[i + 1];
      InsertKeepsDisjoint(x, rest);
      var tail := Insert(x, rest, StartsBefore);
      forall i | 0 <= i < |tail| ensures Disjoint(sorted[0], tail[i]) {
        assert tail[i] in tail && sorted[0] in sorted;
        if tail[i] != x {
          var k :| 0 <= k < |rest| && rest[k] == tail[i];
          assert Disjoint(sorted[0], sorted[k + 1]);
        }
      }
      assert forall i | 0 < i < |out| :: out[i] == tail[i - 1];
    }
  }

  lemma {:induction false} SortKeepsDisjoint(chips: seq<Chip>)
    requires PairwiseApart(chips)
    ensures PairwiseApart(Sort(chips, StartsBefore))
    ensures forall c :: c in Sort(chips, StartsBefore) <==> c in chips
  {
    if chips != [] {
      var rest := chips[1..];
      assert forall i | 0 <= i < |rest| :: rest[i] == chips[i + 1];
      SortKeepsDisjoint(rest);
      forall c | c in Sort(rest, StartsBefore) ensures Disjoint(chips[0], c) {
        var k :| 0 <= k < |rest| && rest[k] == c;
        assert chips[k + 1] == c;
      }
      InsertKeepsDisjoint(chips[0], Sort(rest, StartsBefore));
    }
  }

  /** Chips of real paths that do not overlap, in any order and even past the end of the text, are harmless. */
  lemma DisjointChipsRenderExactly(text: string, chips: seq<Chip>)
    requires PairwiseApart(chips) && forall c | c in chips :: 0 < c.length
    ensures Text(RenderParagraph(text, chips)) == text
  {
    var sorted := Sort(chips, StartsBefore);
    SortKeepsDisjoint(chips);
    SortIsSortedPermutation(chips, StartsBefore);
    forall i | 0 < i < |sorted|
      ensures Min(sorted[i - 1].at + sorted[i - 1].length, |text|) <= Min(sorted[i].at, |text|)
    {
      assert sorted[i] in sorted && !StartsBefore(sorted[i], sorted[i - 1]);
    }
    RenderIsExact(text, chips);
  }

  method Render(text: string, chips: seq<Chip>) returns (parts: seq<Part>)
    ensures parts == RenderParagraph(text, chips)
  {
    if chips == [] {
      return [Plain(text)];
    }
    parts := RenderSorted(text, Sort(chips, StartsBefore));
  }

  method RenderSorted(text: string, sorted: seq<Chip>) returns (parts: seq<Part>)
    ensures parts == Parts(text, sorted, 0)
  {
    parts := [];
    var cursor, i := 0, 0;
    hide Parts, Slice;
    while i < |sorted|
      invariant 0 <= i <= |sorted| && 0 <= cursor
      invariant parts + Parts(text, sorted[i..], cursor) == Parts(text, sorted, 0)
    {
      var chip := sorted[i];
      ghost var done := parts;
      if chip.at > cursor {
        parts := parts + [Plain(Slice(text, cursor, chip.at))];
      }
      parts := parts + [ChipText(Slice(text, chip.at, chip.at + chip.length))];
      NextChip(text, sorted[i..], cursor, done, parts);
      assert sorted[i..][1..] == sorted[i + 1..];
      cursor := chip.at + chip.length;
      i := i + 1;
    }
    NoMoreChips(text, sorted[i..], cursor);
    if cursor < |text| {
      parts := parts + [Plain(text[cursor..])];
    }
  }

  lemma NoMoreChips(text: string, chips: seq<Chip>, cursor: nat)
    requires chips == []
    ensures Parts(text, chips, cursor) == if cursor < |text| then [Plain(text[cursor..])] else []
  {
  }

  lemma NextChip(text: string, chips: seq<Chip>, cursor: nat, done: seq<Part>, parts: seq<Part>)
    requires chips != []
    requires var chip := chips[0];
             parts == done + (if chip.at > cursor then [Plain(Slice(text, cursor, chip.at))] else [])
                      + [ChipText(Slice(text, chip.at, chip.at + chip.length))]
    ensures done + Parts(text, chips, cursor) ==
            parts + Parts(text, chips[1..], chips[0].at + chips[0].length)
  {
  }
}
