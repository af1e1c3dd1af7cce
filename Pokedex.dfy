/**
  The page state the client mutates, and its handlers. A `Card` is one
  player panel (`#p1` or `#p2`): its name and HP, its low-health mark and its
  fixed row of move buttons. A `Page` holds the catalog sprites, the two
  session tokens, the heading, the "hidden" class of every toggled element,
  and the two cards.

  Each remote exchange is split in two: the handler that builds the request
  (its result is what the request carries), and a `...Response` method that
  receives the delivered response and runs the `.then` chain on it. A
  transport failure is the absence of a response: nothing runs and nothing
  changes.
*/
module Pokedex {
  import opened Wrappers
  import opened Strings
  import opened Fetch
  import opened Catalog
  import opened Battle

  const BATTLE_TITLE := "Pokemon Battle Mode!"
  const DEX_TITLE := "Your Pokedex"

  /** Why a `.then` chain stopped: a rejected status, or the TypeError of a card with more moves than buttons. */
  datatype ChainError = Rejected(message: string) | MoveSlotOverflow

  /** The two controls `switchViews` is attached to. */
  datatype ViewButton = StartBtn | EndgameBtn

  /** Whether each toggled element has the "hidden" class. */
  datatype Visibility = Visibility(
    pokedexView: bool, p2: bool, hpInfo: bool, results: bool, startBtn: bool,
    fleeBtn: bool, endgame: bool, loading: bool, p1TurnResults: bool, p2TurnResults: bool)

  /** The observable contents of a card. */
  datatype CardState = CardState(
    name: string, hp: int, lowHealth: bool,
    hidden: seq<bool>, disabled: seq<bool>, moveNames: seq<string>, dps: seq<string>)

  function AllTrue(n: nat): seq<bool>
  {
    seq(n, i => true)
  }

  /** The heading after a turn with the given outcome. */
  function TitleAfter(o: Outcome, title: string): string
  {
    match o
    case Lost => LOST_TITLE
    case Won => WON_TITLE
    case Undecided => title
  }

  class Card {
    var name: string
    var hp: int
    var lowHealth: bool
    /** Per move button: has the "hidden" class; is disabled; its `.move` text; its `.dp` text. */
    const hidden: array<bool>
    const disabled: array<bool>
    const moveNames: array<string>
    const dps: array<string>
    ghost const Repr: set<object>

    ghost predicate Valid()
    {
      Repr == {this, hidden, disabled, moveNames, dps} &&
      hidden != disabled && moveNames != dps &&
      disabled.Length == hidden.Length && moveNames.Length == hidden.Length &&
      dps.Length == hidden.Length
    }

    function Slots(): nat
    {
      hidden.Length
    }

    ghost function State(): CardState
      reads this, hidden, disabled, moveNames, dps
    {
      CardState(name, hp, lowHealth, hidden[..], disabled[..], moveNames[..], dps[..])
    }

    /** An empty card with `slots` move buttons, all shown and disabled. */
    constructor (slots: nat)
      ensures Valid() && fresh(Repr)
      ensures Slots() == slots
      ensures State() == CardState("", 0, false, seq(slots, i => false), AllTrue(slots),
                                   seq(slots, i => ""), seq(slots, i => ""))
    {
      name, hp, lowHealth := "", 0, false;
      hidden := new bool[slots](i => false);
      disabled := new bool[slots](i => true);
      moveNames := new string[slots](i => "");
      dps := new string[slots](i => "");
      Repr := {this, hidden, disabled, moveNames, dps};
      new;
      assert hidden[..] == seq(slots, i => false);
      assert disabled[..] == AllTrue(slots);
      assert moveNames[..] == seq(slots, i => "") && dps[..] == seq(slots, i => "");
    }

    /**
      `handleAbilities`: hide the trailing buttons the card has no move for (or
      show every button), then write each move's name and DP text into its slot.
      With more moves than buttons the writes stop at the last button and the
      call fails.
    */
    method HandleAbilities(moves: seq<Move>) returns (ok: bool)
      requires Valid()
      modifies hidden, moveNames, dps
      ensures ok <==> |moves| <= Slots()
      ensures hidden[..] == HiddenAfter(old(hidden[..]), |moves|)
      ensures moveNames[..] == Fill(old(moveNames[..]), MoveNames(moves))
      ensures dps[..] == Fill(old(dps[..]), DpTexts(moves))
    {
      var n := hidden.Length;
      if n > |moves| {
        var i := 0;
        while i < n - |moves|
          modifies hidden
          invariant 0 <= i <= n - |moves|
          invariant forall k :: 0 <= k < n ==> hidden[k] == if k >= n - i then true else old(hidden[k])
        {
          hidden[n - i - 1] := true;
          i := i + 1;
        }
      } else {
        var i := 0;
        while i < n
          modifies hidden
          invariant 0 <= i <= n
          invariant forall k :: 0 <= k < n ==> hidden[k] == if k < i then false else old(hidden[k])
        {
          if hidden[i] {
            hidden[i] := !hidden[i];
          }
          i := i + 1;
        }
      }
      var i := 0;
      while i < |moves| && i < n
        modifies moveNames, dps
        invariant 0 <= i <= n && i <= |moves|
        invariant forall k :: 0 <= k < n ==> moveNames[k] == if k < i then moves[k].name else old(moveNames[k])
        invariant forall k :: 0 <= k < n ==> dps[k] == if k < i then DpText(moves[k].dp) else old(dps[k])
      {
        moveNames[i] := moves[i].name;
        dps[i] := DpText(moves[i].dp);
        i := i + 1;
      }
      ok := |moves| <= n;
    }
  }

  class Page {
    /** The sprites of `#pokedex-view`, in document order. */
    var pokedex: seq<Entry>
    /** The session tokens; undefined until a battle-start response arrives. */
    var guid: Option<string>
    var pid: Option<string>
    /** The text of the `h1` heading. */
    var title: string
    var pokedexViewHidden: bool
    var p2Hidden: bool
    var hpInfoHidden: bool
    var resultsHidden: bool
    var startHidden: bool
    var fleeHidden: bool
    var endgameHidden: bool
    var loadingHidden: bool
    var p1TurnResultsHidden: bool
    var p2TurnResultsHidden: bool
    const p1: Card
    const p2: Card

    /**
      The cards are separate, and the battle panels (`#p2`, player 1's HP
      line, the results container) are shown exactly when the pokedex is not.
    */
    ghost predicate Valid()
      reads this
    {
      p1.Valid() && p2.Valid() && p1.Repr !! p2.Repr &&
      p2Hidden == !pokedexViewHidden &&
      hpInfoHidden == !pokedexViewHidden &&
      resultsHidden == !pokedexViewHidden
    }

    ghost function Flags(): Visibility
      reads this
    {
      Visibility(pokedexViewHidden, p2Hidden, hpInfoHidden, resultsHidden, startHidden,
                 fleeHidden, endgameHidden, loadingHidden, p1TurnResultsHidden, p2TurnResultsHidden)
    }

    /** The card `addCard` fills: player 1's while the pokedex is shown, the opponent's otherwise. */
    function ChosenCard(): Card
      reads this
    {
      if pokedexViewHidden then p2 else p1
    }

    /**
      A freshly loaded page (the layout of the page's markup): the pokedex is
      shown and every battle element, the start button and the loading
      indicator are hidden.
    */
    constructor (slots: nat)
      ensures Valid() && fresh(p1.Repr) && fresh(p2.Repr)
      ensures pokedex == [] && guid == None && pid == None && title == DEX_TITLE
      ensures Flags() == Visibility(false, true, true, true, true, true, true, true, true, true)
      ensures p1.Slots() == slots && p2.Slots() == slots
    {
      pokedex, guid, pid, title := [], None, None, DEX_TITLE;
      pokedexViewHidden, p2Hidden, hpInfoHidden, resultsHidden := false, true, true, true;
      startHidden, fleeHidden, endgameHidden, loadingHidden := true, true, true, true;
      p1TurnResultsHidden, p2TurnResultsHidden := true, true;
      p1 := new Card(slots);
      p2 := new Card(slots);
    }

    // -------------------------------------------------------------------
    // Catalog
    // -------------------------------------------------------------------

    /** `createImgs`: append one sprite per line of the listing. */
    method CreateImgs(listing: string)
      requires Valid()
      modifies this`pokedex
      ensures Valid()
      ensures pokedex == old(pokedex) + ParseListing(listing)
    {
      var lines := Split(listing, '\n');
      ghost var parsed := ParseListing(listing);
      var i := 0;
      while i < |lines|
        invariant 0 <= i <= |lines|
        invariant pokedex == old(pokedex) + parsed[..i]
      {
        var name := NameOf(lines[i]);
        pokedex := pokedex + [Entry(name, IsStarter(name))];
        assert parsed[..i + 1] == parsed[..i] + [parsed[i]];
        i := i + 1;
      }
      assert parsed[..i] == parsed;
    }

    /** `initBoard`'s chain: a delivered listing passes the status gate, then fills the pokedex. */
    method InitBoardResponse(r: Response<string>) returns (err: Option<ChainError>)
      requires Valid()
      modifies this`pokedex
      ensures Valid()
      ensures match CheckStatus(r)
        case Success(listing) => err == None && pokedex == old(pokedex) + ParseListing(listing)
        case Failure(m) => err == Some(Rejected(m)) && pokedex == old(pokedex)
    {
      match CheckStatus(r)
      case Success(listing) =>
        CreateImgs(listing);
        err := None;
      case Failure(m) =>
        err := Some(Rejected(m));
    }

    /** `addFoundPokemon`: mark found every sprite whose id is the defeated opponent's short name. */
    method AddFoundPokemon(shortname: string)
      requires Valid()
      modifies this`pokedex
      ensures Valid()
      ensures pokedex == MarkFound(old(pokedex), shortname)
    {
      var i := 0;
      while i < |pokedex|
        invariant 0 <= i <= |pokedex| == |old(pokedex)|
        invariant forall k :: 0 <= k < i ==> pokedex[k] == Mark(old(pokedex)[k], shortname)
        invariant forall k :: i <= k < |pokedex| ==> pokedex[k] == old(pokedex)[k]
      {
        if ElementId(pokedex[i]) == shortname {
          pokedex := pokedex[i := pokedex[i].(found := true)];
        }
        i := i + 1;
      }
    }

    /**
      `createPokeCard`: only a found sprite has the click listener; its click
      requests the detail record of the pokemon named by its id.
    */
    method CreatePokeCard(i: nat) returns (query: Option<string>)
      requires i < |pokedex|
      ensures query.Some? <==> pokedex[i].found
      ensures query.Some? ==> query.value == ElementId(pokedex[i])
    {
      if pokedex[i].found {
        query := Some(ElementId(pokedex[i]));
      } else {
        query := None;
      }
    }

    // -------------------------------------------------------------------
    // Cards
    // -------------------------------------------------------------------

    /** `addCard`: fill the card chosen by the pokedex's visibility with a detail record. */
    method AddCard(d: Detail) returns (ok: bool)
      requires Valid()
      modifies p1, p1.hidden, p1.moveNames, p1.dps, p2, p2.hidden, p2.moveNames, p2.dps
      ensures Valid()
      ensures ok <==> |d.moves| <= ChosenCard().Slots()
      ensures var c, other := ChosenCard(), if ChosenCard() == p1 then p2 else p1;
        c.State() == old(c.State()).(name := d.name, hp := d.hp,
          hidden := HiddenAfter(old(c.hidden[..]), |d.moves|),
          moveNames := Fill(old(c.moveNames[..]), MoveNames(d.moves)),
          dps := Fill(old(c.dps[..]), DpTexts(d.moves))) &&
        other.State() == old(other.State())
    {
      var c := if pokedexViewHidden then p2 else p1;
      c.name := d.name;
      c.hp := d.hp;
      ok := c.HandleAbilities(d.moves);
    }

    /** `handleStart`: the start button ends up hidden exactly when the opponent's card is shown. */
    method HandleStart()
      requires Valid()
      modifies this`startHidden
      ensures Valid()
      ensures startHidden <==> !p2Hidden
    {
      if startHidden {
        startHidden := !startHidden;
      }
      if !p2Hidden {
        startHidden := !startHidden;
      }
    }

    /** `createPokeCard`'s chain: status gate, `addCard`, then `handleStart` unless `addCard` threw. */
    method CreatePokeCardResponse(r: Response<Detail>) returns (err: Option<ChainError>)
      requires Valid()
      modifies this`startHidden, p1, p1.hidden, p1.moveNames, p1.dps, p2, p2.hidden, p2.moveNames, p2.dps
      ensures Valid()
      ensures CheckStatus(r).Failure? ==>
        err == Some(Rejected(CheckStatus(r).error)) && startHidden == old(startHidden) &&
        p1.State() == old(p1.State()) && p2.State() == old(p2.State())
      ensures CheckStatus(r).Success? ==>
        var d, c, other := r.body, ChosenCard(), if ChosenCard() == p1 then p2 else p1;
        c.State() == old(c.State()).(name := d.name, hp := d.hp,
          hidden := HiddenAfter(old(c.hidden[..]), |d.moves|),
          moveNames := Fill(old(c.moveNames[..]), MoveNames(d.moves)),
          dps := Fill(old(c.dps[..]), DpTexts(d.moves))) &&
        other.State() == old(other.State()) &&
        (err == None <==> |d.moves| <= c.Slots()) &&
        (err != None ==> err == Some(MoveSlotOverflow) && startHidden == old(startHidden)) &&
        (err == None ==> (startHidden <==> !p2Hidden))
    {
      match CheckStatus(r)
      case Failure(m) =>
        err := Some(Rejected(m));
      case Success(d) =>
        var ok := AddCard(d);
        if ok {
          HandleStart();
          err := None;
        } else {
          err := Some(MoveSlotOverflow);
        }
    }

    // -------------------------------------------------------------------
    // Views
    // -------------------------------------------------------------------

    /** `enableButtons`: enable every player-1 move button that is not hidden. */
    method EnableButtons()
      requires Valid()
      modifies p1.disabled
      ensures Valid()
      ensures p1.disabled[..] == EnabledAfter(old(p1.disabled[..]), p1.hidden[..])
    {
      var i := 0;
      while i < p1.disabled.Length
        invariant 0 <= i <= p1.disabled.Length
        invariant forall k :: 0 <= k < p1.disabled.Length ==>
          p1.disabled[k] == if k < i then old(p1.disabled[k]) && p1.hidden[k] else old(p1.disabled[k])
      {
        if !p1.hidden[i] {
          p1.disabled[i] := false;
        }
        i := i + 1;
      }
    }

    /** `resetHealth`: clear both low-health marks. */
    method ResetHealth()
      requires Valid()
      modifies p1`lowHealth, p2`lowHealth
      ensures Valid()
      ensures !p1.lowHealth && !p2.lowHealth
    {
      p1.lowHealth := false;
      p2.lowHealth := false;
    }

    /** `loadingScreen`: toggle the loading indicator. */
    method LoadingScreen()
      requires Valid()
      modifies this`loadingHidden
      ensures Valid()
      ensures loadingHidden == !old(loadingHidden)
    {
      loadingHidden := !loadingHidden;
    }

    /**
      `switchViews`. The start button builds the battle-start request from
      player 1's card name, shows the flee button and enables the visible
      moves; the end-of-game button clears the low-health marks and toggles
      itself and the start button. Both toggle the pokedex against the battle panels.
    */
    method SwitchViews(b: ViewButton) returns (req: Option<StartRequest>)
      requires Valid()
      modifies this`title, this`fleeHidden, this`endgameHidden, this`startHidden,
        this`pokedexViewHidden, this`p2Hidden, this`hpInfoHidden, this`resultsHidden,
        p1`lowHealth, p2`lowHealth, p1.disabled
      ensures Valid()
      ensures p1.name == old(p1.name) && p1.hp == old(p1.hp)
      ensures b == StartBtn ==>
        req == Some(StartRequest("true", old(p1.name))) &&
        title == BATTLE_TITLE &&
        p1.disabled[..] == EnabledAfter(old(p1.disabled[..]), p1.hidden[..]) &&
        p1.lowHealth == old(p1.lowHealth) && p2.lowHealth == old(p2.lowHealth) &&
        Flags() == old(Flags()).(pokedexView := !old(pokedexViewHidden), p2 := !old(p2Hidden),
          hpInfo := !old(hpInfoHidden), results := !old(resultsHidden), fleeBtn := !old(fleeHidden))
      ensures b == EndgameBtn ==>
        req == None &&
        title == DEX_TITLE &&
        p1.disabled[..] == old(p1.disabled[..]) &&
        !p1.lowHealth && !p2.lowHealth &&
        Flags() == old(Flags()).(pokedexView := !old(pokedexViewHidden), p2 := !old(p2Hidden),
          hpInfo := !old(hpInfoHidden), results := !old(resultsHidden),
          endgame := !old(endgameHidden), startBtn := !old(startHidden))
    {
      if b == StartBtn {
        req := Some(StartRequest("true", p1.name));
        title := BATTLE_TITLE;
        fleeHidden := !fleeHidden;
        EnableButtons();
      } else {
        req := None;
        ResetHealth();
        endgameHidden := !endgameHidden;
        startHidden := !startHidden;
        title := DEX_TITLE;
      }
      ToggleBattlePanels();
    }

    /** The four toggles that end `switchViews`: the pokedex against the battle panels. */
    method ToggleBattlePanels()
      requires Valid()
      modifies this`pokedexViewHidden, this`p2Hidden, this`hpInfoHidden, this`resultsHidden
      ensures Valid()
      ensures Flags() == old(Flags()).(pokedexView := !old(pokedexViewHidden), p2 := !old(p2Hidden),
          hpInfo := !old(hpInfoHidden), results := !old(resultsHidden))
    {
      pokedexViewHidden := !pokedexViewHidden;
      p2Hidden := !p2Hidden;
      hpInfoHidden := !hpInfoHidden;
      resultsHidden := !resultsHidden;
    }

    /**
      `preBattleView`'s chain on a delivered battle-start response: store the
      two tokens, fill the card `addCard` chooses with the opponent, then
      `handleStart` unless `addCard` threw.
    */
    method PreBattleViewResponse(r: Response<StartData>) returns (err: Option<ChainError>)
      requires Valid()
      modifies this`guid, this`pid, this`startHidden,
        p1, p1.hidden, p1.moveNames, p1.dps, p2, p2.hidden, p2.moveNames, p2.dps
      ensures Valid()
      ensures CheckStatus(r).Failure? ==>
        err == Some(Rejected(CheckStatus(r).error)) &&
        guid == old(guid) && pid == old(pid) && startHidden == old(startHidden) &&
        p1.State() == old(p1.State()) && p2.State() == old(p2.State())
      ensures CheckStatus(r).Success? ==>
        var d, c, other := r.body.p2, ChosenCard(), if ChosenCard() == p1 then p2 else p1;
        guid == Some(r.body.guid) && pid == Some(r.body.pid) &&
        c.State() == old(c.State()).(name := d.name, hp := d.hp,
          hidden := HiddenAfter(old(c.hidden[..]), |d.moves|),
          moveNames := Fill(old(c.moveNames[..]), MoveNames(d.moves)),
          dps := Fill(old(c.dps[..]), DpTexts(d.moves))) &&
        other.State() == old(other.State()) &&
        (err == None <==> |d.moves| <= c.Slots()) &&
        (err != None ==> err == Some(MoveSlotOverflow) && startHidden == old(startHidden)) &&
        (err == None ==> (startHidden <==> !p2Hidden))
    {
      match CheckStatus(r)
      case Failure(m) =>
        err := Some(Rejected(m));
      case Success(data) =>
        guid := Some(data.guid);
        pid := Some(data.pid);
        var ok := AddCard(data.p2);
        if ok {
          HandleStart();
          err := None;
        } else {
          err := Some(MoveSlotOverflow);
        }
    }

    // -------------------------------------------------------------------
    // Turns
    // -------------------------------------------------------------------

    /**
      `playGame`: the turn request echoes the stored tokens and names the move
      (or "flee"); the loading indicator is toggled before the request leaves.
    */
    method PlayGame(choice: Choice) returns (req: TurnRequest)
      requires Valid()
      requires choice.MoveButton? ==> choice.slot < p1.Slots()
      modifies this`loadingHidden
      ensures Valid()
      ensures req.guid == Stringify(guid) && req.pid == Stringify(pid)
      ensures req.movename == MoveNameFor(choice, p1.moveNames[..])
      ensures loadingHidden == !old(loadingHidden)
    {
      var movename;
      if choice.FleeButton? {
        movename := FLEE;
      } else {
        movename := NormalizeMove(p1.moveNames[choice.slot]);
      }
      req := TurnRequest(Stringify(guid), Stringify(pid), movename);
      LoadingScreen();
    }

    /**
      `win`: a zero player HP loses, else a zero opponent HP wins and marks the
      opponent found; either way the end-of-game button is shown, the flee
      button hidden and every player-1 move disabled.
    */
    method Win(t: TurnResult)
      requires Valid()
      modifies this`title, this`pokedex, this`endgameHidden, this`fleeHidden, p1.disabled
      ensures Valid()
      ensures var o := Decide(t.p1.currentHp, t.p2.currentHp);
        title == TitleAfter(o, old(title)) &&
        pokedex == (if o == Won then MarkFound(old(pokedex), t.p2.shortname) else old(pokedex)) &&
        endgameHidden == (if o == Undecided then old(endgameHidden) else false) &&
        fleeHidden == (if o == Undecided then old(fleeHidden) else true) &&
        p1.disabled[..] == (if o == Undecided then old(p1.disabled[..]) else AllTrue(p1.Slots()))
    {
      var endGame := false;
      if t.p1.currentHp == 0 {
        title := LOST_TITLE;
        endGame := true;
      } else if t.p2.currentHp == 0 {
        title := WON_TITLE;
        endGame := true;
        AddFoundPokemon(t.p2.shortname);
      }
      if endGame {
        endgameHidden := false;
        fleeHidden := true;
        var i := 0;
        while i < p1.disabled.Length
          modifies p1.disabled
          invariant 0 <= i <= p1.disabled.Length
          invariant forall k :: 0 <= k < i ==> p1.disabled[k]
        {
          p1.disabled[i] := true;
          i := i + 1;
        }
        assert p1.disabled[..] == AllTrue(p1.Slots());
      }
    }

    /**
      `calculateDamage`: overwrite both displayed HPs, set a side's low-health
      mark when its percentage is at most LOW_PERCENT (never clearing it), then `win`.
    */
    method CalculateDamage(t: TurnResult)
      requires Valid()
      modifies this`title, this`pokedex, this`endgameHidden, this`fleeHidden,
        p1`hp, p1`lowHealth, p1.disabled, p2`hp, p2`lowHealth
      ensures Valid()
      ensures p1.hp == t.p1.currentHp && p2.hp == t.p2.currentHp
      ensures p1.lowHealth == (old(p1.lowHealth) || LowHealth(t.p1.currentHp, t.p1.hp))
      ensures p2.lowHealth == (old(p2.lowHealth) || LowHealth(t.p2.currentHp, t.p2.hp))
      ensures var o := Decide(t.p1.currentHp, t.p2.currentHp);
        title == TitleAfter(o, old(title)) &&
        pokedex == (if o == Won then MarkFound(old(pokedex), t.p2.shortname) else old(pokedex)) &&
        endgameHidden == (if o == Undecided then old(endgameHidden) else false) &&
        fleeHidden == (if o == Undecided then old(fleeHidden) else true) &&
        p1.disabled[..] == (if o == Undecided then old(p1.disabled[..]) else AllTrue(p1.Slots()))
    {
      p1.hp := t.p1.currentHp;
      p2.hp := t.p2.currentHp;
      if LowHealth(t.p1.currentHp, t.p1.hp) && !p1.lowHealth {
        p1.lowHealth := true;
      }
      if LowHealth(t.p2.currentHp, t.p2.hp) && !p2.lowHealth {
        p2.lowHealth := true;
      }
      Win(t);
    }

    /** `processTurn`: show both turn-result lines, then `calculateDamage`. */
    method ProcessTurn(t: TurnResult)
      requires Valid()
      modifies this`title, this`pokedex, this`endgameHidden, this`fleeHidden,
        this`p1TurnResultsHidden, this`p2TurnResultsHidden,
        p1`hp, p1`lowHealth, p1.disabled, p2`hp, p2`lowHealth
      ensures Valid()
      ensures !p1TurnResultsHidden && !p2TurnResultsHidden
      ensures p1.hp == t.p1.currentHp && p2.hp == t.p2.currentHp
      ensures p1.lowHealth == (old(p1.lowHealth) || LowHealth(t.p1.currentHp, t.p1.hp))
      ensures p2.lowHealth == (old(p2.lowHealth) || LowHealth(t.p2.currentHp, t.p2.hp))
      ensures var o := Decide(t.p1.currentHp, t.p2.currentHp);
        title == TitleAfter(o, old(title)) &&
        pokedex == (if o == Won then MarkFound(old(pokedex), t.p2.shortname) else old(pokedex)) &&
        endgameHidden == (if o == Undecided then old(endgameHidden) else false) &&
        fleeHidden == (if o == Undecided then old(fleeHidden) else true) &&
        p1.disabled[..] == (if o == Undecided then old(p1.disabled[..]) else AllTrue(p1.Slots()))
    {
      p1TurnResultsHidden := false;
      p2TurnResultsHidden := false;
      CalculateDamage(t);
    }

    /**
      `playGame`'s chain on a delivered turn response: status gate,
      `processTurn`, and only then `loadingScreen`, so a rejected turn leaves
      the loading indicator shown and changes nothing else.
    */
    method PlayGameResponse(r: Response<TurnResult>) returns (err: Option<ChainError>)
      requires Valid()
      modifies this`title, this`pokedex, this`endgameHidden, this`fleeHidden,
        this`p1TurnResultsHidden, this`p2TurnResultsHidden, this`loadingHidden,
        p1`hp, p1`lowHealth, p1.disabled, p2`hp, p2`lowHealth
      ensures Valid()
      ensures CheckStatus(r).Failure? ==>
        err == Some(Rejected(CheckStatus(r).error)) &&
        Flags() == old(Flags()) && title == old(title) && pokedex == old(pokedex) &&
        p1.State() == old(p1.State()) && p2.State() == old(p2.State())
      ensures CheckStatus(r).Success? ==>
        var t := r.body;
        var o := Decide(t.p1.currentHp, t.p2.currentHp);
        err == None &&
        title == TitleAfter(o, old(title)) &&
        pokedex == (if o == Won then MarkFound(old(pokedex), t.p2.shortname) else old(pokedex)) &&
        p1.State() == old(p1.State()).(hp := t.p1.currentHp,
          lowHealth := old(p1.lowHealth) || LowHealth(t.p1.currentHp, t.p1.hp),
          disabled := if o == Undecided then old(p1.disabled[..]) else AllTrue(p1.Slots())) &&
        p2.State() == old(p2.State()).(hp := t.p2.currentHp,
          lowHealth := old(p2.lowHealth) || LowHealth(t.p2.currentHp, t.p2.hp)) &&
        Flags() == old(Flags()).(p1TurnResults := false, p2TurnResults := false,
          loading := !old(loadingHidden),
          endgame := if o == Undecided then old(endgameHidden) else false,
          fleeBtn := if o == Undecided then old(fleeHidden) else true)
    {
      match CheckStatus(r)
      case Failure(m) =>
        err := Some(Rejected(m));
      case Success(t) =>
        ProcessTurn(t);
        LoadingScreen();
        err := None;
    }
  }
}
