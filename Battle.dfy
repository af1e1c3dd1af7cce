/**
  The pure decisions of a battle turn and of a card's move slots: the data the
  battle service sends, the move name a button submits, the low-health
  threshold, the win/loss decision, and the new contents of the move slots.
*/
module Battle {
  import opened Wrappers
  import opened Strings

  const MAX_PERCENT := 100
  const LOW_PERCENT := 20
  const FLEE := "flee"
  const LOST_TITLE := "You lost!"
  const WON_TITLE := "You won!"

  /** One move of a pokemon: its name, its type and its damage points (absent for status moves). */
  datatype Move = Move(name: string, moveType: string, dp: Option<int>)

  /** The detail record of one pokemon, as far as the client uses it. */
  datatype Detail = Detail(name: string, hp: int, moves: seq<Move>)

  /** The battle-start response: the two session tokens and the opponent's detail record. */
  datatype StartData = StartData(guid: string, pid: string, p2: Detail)

  /** One side of a turn response: current and full HP, and the pokemon's short name. */
  datatype Side = Side(currentHp: int, hp: int, shortname: string)

  /** A turn response (the narration strings are not modelled). */
  datatype TurnResult = TurnResult(p1: Side, p2: Side)

  /** The form fields of the battle-start request. */
  datatype StartRequest = StartRequest(startgame: string, mypokemon: string)

  /** The form fields of a turn request. */
  datatype TurnRequest = TurnRequest(guid: string, pid: string, movename: string)

  /** The control whose click plays a turn: one of player 1's move buttons, or the flee button. */
  datatype Choice = MoveButton(slot: nat) | FleeButton

  datatype Outcome = Lost | Won | Undecided

  // ---------------------------------------------------------------------
  // End of battle
  // ---------------------------------------------------------------------

  /** `win`: the player's HP is checked first, so a double knock-out is a loss. */
  function Decide(p1Hp: int, p2Hp: int): Outcome
  {
    if p1Hp == 0 then Lost else if p2Hp == 0 then Won else Undecided
  }

  /** The three outcomes, each with its exact condition. */
  lemma DecideCases(p1Hp: int, p2Hp: int)
    ensures Decide(p1Hp, p2Hp) == Lost <==> p1Hp == 0
    ensures Decide(p1Hp, p2Hp) == Won <==> p1Hp != 0 && p2Hp == 0
    ensures Decide(p1Hp, p2Hp) == Undecided <==> p1Hp != 0 && p2Hp != 0
  {
  }

  // ---------------------------------------------------------------------
  // Low health
  // ---------------------------------------------------------------------

  /**
    `current / full * MAX_PERCENT <= LOW_PERCENT`, decided exactly by
    cross-multiplying. A zero `full` divides to an infinity or NaN in
    JavaScript, which is at most the threshold only for a negative `current`.
  */
  predicate LowHealth(current: int, full: int)
  {
    if full > 0 then current * MAX_PERCENT <= LOW_PERCENT * full
    else if full < 0 then current * MAX_PERCENT >= LOW_PERCENT * full
    else current < 0
  }

  /** The integer test agrees with the percentage computed over the reals. */
  lemma LowHealthIsPercentAtMostLow(current: int, full: int)
    requires full != 0
    ensures LowHealth(current, full) <==>
      (current as real) / (full as real) * (MAX_PERCENT as real) <= LOW_PERCENT as real
  {
    var c, f := current as real, full as real;
    var q := c / f;
    assert q * f == c;
    if full > 0 {
      assert q * 100.0 <= 20.0 <==> q * 100.0 * f <= 20.0 * f;
      assert q * 100.0 * f == c * 100.0;
    } else {
      assert q * 100.0 <= 20.0 <==> q * 100.0 * f >= 20.0 * f;
      assert q * 100.0 * f == c * 100.0;
    }
  }

  /** For a positive full HP, lower health stays low. */
  lemma LowHealthDownwardClosed(current: int, lower: int, full: int)
    requires full > 0 && lower <= current && LowHealth(current, full)
    ensures LowHealth(lower, full)
  {
  }

  /**
    The low-health mark is sticky (`calculateDamage` only ever adds it). While
    the full HP stays positive and the HP does not rise, the sticky mark is
    exactly the test on the latest HP, so it never shows a stale warning.
  */
  lemma StickyMarkMatchesCurrent(marked: bool, current: int, lower: int, full: int)
    requires full > 0 && lower <= current
    requires marked ==> LowHealth(current, full)
    ensures (marked || LowHealth(lower, full)) <==> LowHealth(lower, full)
  {
    if marked {
      LowHealthDownwardClosed(current, lower, full);
    }
  }

  // ---------------------------------------------------------------------
  // Move names
  // ---------------------------------------------------------------------

  /** The characters JavaScript's `\s` matches. */
  predicate IsSpace(c: char)
  {
    c == '\t' || c == '\n' || c == '\U{B}' || c == '\U{C}' || c == '\r' || c == ' ' ||
    c == '\U{A0}' || c == '\U{1680}' || ('\U{2000}' <= c <= '\U{200A}') ||
    c == '\U{2028}' || c == '\U{2029}' || c == '\U{202F}' || c == '\U{205F}' ||
    c == '\U{3000}' || c == '\U{FEFF}'
  }

  predicate IsUpper(c: char) { 'A' <= c <= 'Z' }

  function LowerChar(c: char): char
  {
    if IsUpper(c) then (c as int - 'A' as int + 'a' as int) as char else c
  }

  /** `toLowerCase`, on the ASCII letters. */
  function Lower(s: string): string
  {
    seq(|s|, i requires 0 <= i < |s| => LowerChar(s[i]))
  }

  /** `replace(/\s/, '')`: removes the first whitespace character only. */
  function RemoveFirstSpace(s: string): string
  {
    if s == [] then []
    else if IsSpace(s[0]) then s[1..]
    else [s[0]] + RemoveFirstSpace(s[1..])
  }

  /** The move name a move button submits. */
  function NormalizeMove(caption: string): string
  {
    RemoveFirstSpace(Lower(caption))
  }

  /** The `movename` field of a turn request. */
  function MoveNameFor(choice: Choice, labels: seq<string>): string
    requires choice.MoveButton? ==> choice.slot < |labels|
  {
    match choice
    case FleeButton => FLEE
    case MoveButton(slot) => NormalizeMove(labels[slot])
  }

  /** The index of the first whitespace character, or the length when there is none. */
  function FirstSpace(s: string): (k: nat)
    ensures k <= |s|
    ensures forall j :: 0 <= j < k ==> !IsSpace(s[j])
    ensures k < |s| ==> IsSpace(s[k])
  {
    if s == [] then 0 else if IsSpace(s[0]) then 0 else 1 + FirstSpace(s[1..])
  }

  lemma {:induction false} RemoveFirstSpaceAt(s: string)
    ensures var k := FirstSpace(s);
      RemoveFirstSpace(s) == if k < |s| then s[..k] + s[k + 1..] else s
  {
    if s != [] && !IsSpace(s[0]) {
      RemoveFirstSpaceAt(s[1..]);
      var k := FirstSpace(s[1..]);
      if k < |s[1..]| {
        assert [s[0]] + (s[1..][..k] + s[1..][k + 1..]) == s[..k + 1] + s[k + 2..];
      } else {
        assert [s[0]] + s[1..] == s;
      }
    }
  }

  lemma {:induction false} LowerKeepsFirstSpace(s: string)
    ensures FirstSpace(Lower(s)) == FirstSpace(s)
  {
    if s != [] {
      assert Lower(s)[0] == LowerChar(s[0]);
      assert Lower(s)[1..] == Lower(s[1..]);
      LowerKeepsFirstSpace(s[1..]);
    }
  }

  /**
    A move button submits its caption lower-cased with exactly the first
    whitespace character taken out; every later character is kept.
  */
  lemma NormalizeMoveRemovesFirstSpace(caption: string)
    ensures var k := FirstSpace(caption);
      NormalizeMove(caption) ==
        if k < |caption| then Lower(caption)[..k] + Lower(caption)[k + 1..] else Lower(caption)
  {
    LowerKeepsFirstSpace(caption);
    RemoveFirstSpaceAt(Lower(caption));
  }

  /** The submitted name has no upper-case letter and is one character shorter iff the caption has whitespace. */
  lemma NormalizeMoveShape(caption: string)
    ensures var r := NormalizeMove(caption);
      (forall j :: 0 <= j < |r| ==> !IsUpper(r[j])) &&
      |r| == (if FirstSpace(caption) < |caption| then |caption| - 1 else |caption|)
  {
    NormalizeMoveRemovesFirstSpace(caption);
    var r := NormalizeMove(caption);
    var k := FirstSpace(caption);
    forall j | 0 <= j < |r| ensures !IsUpper(r[j]) {
      if k < |caption| {
        assert r[j] == if j < k then Lower(caption)[j] else Lower(caption)[j + 1];
      }
    }
  }

  /** A two-word caption in lower case is submitted with its words run together. */
  lemma {:induction false} TwoWordMoveName(first: string, second: string)
    requires forall j :: 0 <= j < |first| ==> !IsUpper(first[j]) && !IsSpace(first[j])
    requires forall j :: 0 <= j < |second| ==> !IsUpper(second[j])
    ensures NormalizeMove(first + " " + second) == first + second
  {
    var caption := first + " " + second;
    NormalizeMoveRemovesFirstSpace(caption);
    assert FirstSpace(caption) == |first| by {
      assert forall j :: 0 <= j < |first| ==> caption[j] == first[j];
      FirstSpaceIs(caption, |first|);
    }
    assert Lower(caption) == caption;
    assert caption[..|first|] == first && caption[|first| + 1..] == second;
  }

  lemma FirstSpaceIs(s: string, k: nat)
    requires k < |s| && IsSpace(s[k]) && forall j :: 0 <= j < k ==> !IsSpace(s[j])
    ensures FirstSpace(s) == k
  {
  }

  // ---------------------------------------------------------------------
  // Move slots
  // ---------------------------------------------------------------------

  /** The DP text of a slot: empty when the move's `dp` is absent or 0 (falsy). */
  function DpText(dp: Option<int>): string
  {
    if dp.Some? && dp.value != 0 then IntToString(dp.value) + " DP" else ""
  }

  /** A DP text is shown exactly for a non-zero DP and reads back as that DP. */
  lemma DpTextShowsDp(dp: Option<int>)
    ensures DpText(dp) != "" <==> dp.Some? && dp.value != 0
    ensures DpText(dp) != "" ==>
      |DpText(dp)| > 3 && ParseInt(DpText(dp)[..|DpText(dp)| - 3]) == Some(dp.value) &&
      DpText(dp)[|DpText(dp)| - 3..] == " DP"
  {
    if dp.Some? && dp.value != 0 {
      var t := DpText(dp);
      assert t[..|t| - 3] == IntToString(dp.value);
      assert t[|t| - 3..] == " DP";
      IntToStringRoundTrip(dp.value);
    }
  }

  function MoveNames(moves: seq<Move>): seq<string>
  {
    seq(|moves|, i requires 0 <= i < |moves| => moves[i].name)
  }

  function DpTexts(moves: seq<Move>): seq<string>
  {
    seq(|moves|, i requires 0 <= i < |moves| => DpText(moves[i].dp))
  }

  /** Writing `values` into the leading slots; slots past the values keep their content. */
  function Fill(slots: seq<string>, values: seq<string>): seq<string>
  {
    seq(|slots|, i requires 0 <= i < |slots| => if i < |values| then values[i] else slots[i])
  }

  /**
    The hidden flags of the move buttons after a card with `count` moves: with
    fewer moves than buttons only the trailing buttons are hidden and the
    leading ones are left as they were; otherwise every button is shown.
  */
  function HiddenAfter(hidden: seq<bool>, count: nat): seq<bool>
  {
    if count < |hidden| then
      seq(|hidden|, i requires 0 <= i < |hidden| => if i >= count then true else hidden[i])
    else
      seq(|hidden|, i requires 0 <= i < |hidden| => false)
  }

  /** Exactly the buttons without a move hidden. */
  function ExactlyUnusedHidden(slots: nat, count: nat): seq<bool>
  {
    seq(slots, i requires 0 <= i < slots => i >= count)
  }

  /**
    The slot update hides exactly the buttons without a move iff the card has
    at least as many moves as there are buttons, or no button that receives a
    move was hidden before.
  */
  lemma HiddenAfterExactIff(hidden: seq<bool>, count: nat)
    ensures HiddenAfter(hidden, count) == ExactlyUnusedHidden(|hidden|, count) <==>
      count >= |hidden| || forall i :: 0 <= i < count ==> !hidden[i]
  {
    var r, e := HiddenAfter(hidden, count), ExactlyUnusedHidden(|hidden|, count);
    if count >= |hidden| || forall i :: 0 <= i < count ==> !hidden[i] {
      assert forall i :: 0 <= i < |hidden| ==> r[i] == e[i];
    } else {
      var i :| 0 <= i < count && hidden[i];
      assert r[i] != e[i];
    }
  }

  /**
    A card with fewer moves followed by a card with more (but still fewer than
    the buttons) leaves a button hidden although the second card puts a move in it.
  */
  lemma StaleHiddenSlot(hidden: seq<bool>, fewer: nat, more: nat)
    requires fewer < more < |hidden|
    ensures HiddenAfter(HiddenAfter(hidden, fewer), more)[fewer]
  {
  }

  /** `enableButtons`: every visible button becomes enabled; hidden ones keep their state. */
  function EnabledAfter(disabled: seq<bool>, hidden: seq<bool>): seq<bool>
    requires |disabled| == |hidden|
  {
    seq(|disabled|, i requires 0 <= i < |disabled| => disabled[i] && hidden[i])
  }
}
