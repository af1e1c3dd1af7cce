/**
  Client code that drives a page through one battle using only the methods'
  contracts: load a listing, pick a starter, start, play turns, win, go back.
*/
module Scenarios {
  import opened Wrappers
  import opened Strings
  import opened Fetch
  import opened Catalog
  import opened Battle
  import opened Pokedex

  /** From a fresh page to a started battle against "rattata". */
  method StartedBattle(first: string, second: string, tackle: Move)
    requires first == "bulbasaur" && second == "charmander"
  {
    var page := new Page(4);
    var listing := "1:" + first + "\n2:" + second;
    TwoStartersListing(first, second);
    var err := page.InitBoardResponse(Response(200, "OK", listing));
    assert err == None;
    assert page.pokedex == [Entry(Some(first), true), Entry(Some(second), true)];

    // Clicking the first sprite asks for its detail record; the card goes to player 1.
    var query := page.CreatePokeCard(0);
    assert query == Some(first);
    var mine := Detail("Bulbasaur", 45, [tackle, tackle]);
    err := page.CreatePokeCardResponse(Response(200, "OK", mine));
    assert err == None && page.p1.name == "Bulbasaur";
    assert !page.startHidden;

    StartAgainstRattata(page, tackle);
  }

  /** The start button, then the battle-start response. */
  method StartAgainstRattata(page: Page, bite: Move)
    requires page.Valid() && !page.pokedexViewHidden && page.p1.name == "Bulbasaur"
    requires page.p1.Slots() == 4 && page.p2.Slots() == 4
    modifies page`title, page`fleeHidden, page`endgameHidden, page`startHidden,
      page`pokedexViewHidden, page`p2Hidden, page`hpInfoHidden, page`resultsHidden,
      page.p1`lowHealth, page.p2`lowHealth, page.p1.disabled, page`guid, page`pid,
      page.p1, page.p1.hidden, page.p1.moveNames, page.p1.dps,
      page.p2, page.p2.hidden, page.p2.moveNames, page.p2.dps
  {
    // The start button switches views and declares player 1's pokemon.
    var start := page.SwitchViews(StartBtn);
    assert start == Some(StartRequest("true", "Bulbasaur"));
    assert page.pokedexViewHidden && !page.p2Hidden;

    // The battle-start response stores the tokens and fills the opponent's card.
    var opponent := Detail("Rattata", 30, [bite]);
    var err := page.PreBattleViewResponse(Response(200, "OK", StartData("g-1", "p-1", opponent)));
    assert err == None && page.p2.name == "Rattata" && page.startHidden;
    assert page.p2.moveNames[0] == bite.name && page.p2.hidden[1] && page.p2.hidden[3];
    assert page.p1.name == "Bulbasaur";
  }

  /** Turns of a started battle: one rejected, then one that knocks the opponent out. */
  method WonTurns(page: Page, first: string)
    requires page.Valid() && page.p1.Slots() == 4
    requires page.guid == Some("g-1") && page.pid == Some("p-1")
    requires exists i :: 0 <= i < |page.pokedex| && ElementId(page.pokedex[i]) == "rattata"
    modifies page`title, page`pokedex, page`endgameHidden, page`fleeHidden,
      page`p1TurnResultsHidden, page`p2TurnResultsHidden, page`loadingHidden,
      page.p1`hp, page.p1`lowHealth, page.p1.disabled, page.p2`hp, page.p2`lowHealth
  {
    // A move click echoes both tokens and shows the loading indicator.
    var wasLoading := page.loadingHidden;
    var turn := page.PlayGame(MoveButton(0));
    assert turn.guid == "g-1" && turn.pid == "p-1";
    assert page.loadingHidden == !wasLoading;

    // A rejected turn changes nothing: the indicator stays shown.
    var dex := page.pokedex;
    var before := page.Flags();
    var p2Hp := page.p2.hp;
    var late := TurnResult(Side(20, 45, first), Side(0, 30, "rattata"));
    var err := page.PlayGameResponse(Response(503, "Service Unavailable", late));
    assert err.Some? && err.value.Rejected?;
    assert page.Flags() == before && page.p2.hp == p2Hp;

    // The opponent is knocked out: a win, with the heading and the end-of-game button.
    err := page.PlayGameResponse(Response(200, "OK", late));
    assert Decide(20, 0) == Won;
    assert err == None && page.title == WON_TITLE && !page.endgameHidden && page.fleeHidden;
    assert page.p2.hp == 0 && page.p2.lowHealth;
    // The opponent's sprite is now found, so it can be picked from the pokedex.
    MarkFoundMakesFound(dex, "rattata");
    assert IsFound(page.pokedex, "rattata");
    assert forall i :: 0 <= i < 4 ==> page.p1.disabled[i];
  }

  /** Back to the pokedex after a battle: low-health marks cleared, start button toggled back. */
  method BackToPokedex(page: Page)
    requires page.Valid() && page.pokedexViewHidden && !page.endgameHidden && page.startHidden
    modifies page`title, page`fleeHidden, page`endgameHidden, page`startHidden,
      page`pokedexViewHidden, page`p2Hidden, page`hpInfoHidden, page`resultsHidden,
      page.p1`lowHealth, page.p2`lowHealth, page.p1.disabled
  {
    var none := page.SwitchViews(EndgameBtn);
    assert none == None && !page.pokedexViewHidden && page.p2Hidden && page.endgameHidden;
    assert !page.p1.lowHealth && !page.p2.lowHealth && !page.startHidden;
    assert page.title == DEX_TITLE;
  }

  /** A double knock-out is a loss and leaves the catalog as it was. */
  method DoubleKnockOut(page: Page, shortname: string)
    requires page.Valid()
    modifies page`title, page`pokedex, page`endgameHidden, page`fleeHidden,
      page`p1TurnResultsHidden, page`p2TurnResultsHidden, page`loadingHidden,
      page.p1`hp, page.p1`lowHealth, page.p1.disabled, page.p2`hp, page.p2`lowHealth
  {
    var before := page.pokedex;
    var err := page.PlayGameResponse(Response(200, "OK", TurnResult(Side(0, 40, "pikachu"), Side(0, 39, shortname))));
    assert err == None && page.title == LOST_TITLE && page.pokedex == before;
  }
}
