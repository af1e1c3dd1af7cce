# Pokedex battle client — a Dafny model

`pokedex.js` is the browser client of a pokedex and battle game. It loads the
catalog listing (`"<ordinal>:<name>"` lines) and shows one sprite per line. The
three starters (charmander, bulbasaur, squirtle) are "found" and clickable from
the start. Clicking a found sprite loads its detail card into player 1's panel.
The start button asks the game service for a battle and loads the opponent's
card. Each move button, or the flee button, plays one turn. The turn result
overwrites both HPs, marks a side whose HP fell to at most 20 % as low on
health, and ends the battle when an HP reaches 0. A won battle marks the
opponent's sprite found. The end-of-game button returns to the pokedex.

The model is a Dafny project of seven modules:

- `Wrappers` — `Option` and `Result`.
- `Strings` — the JavaScript string operations the client relies on.
  - `split` with a one-character separator, with `join` as its inverse.
  - Decimal rendering of integers, with a parser as its inverse.
- `Fetch` — `checkStatus`, the status gate every response goes through, and the
  rejection message it builds.
- `Catalog` — the catalog as a sequence of entries, each a name and a found
  flag. Covers the parse `createImgs` performs and the update
  `addFoundPokemon` makes.
- `Battle` — the pure turn logic:
  - the outcome test of `win`;
  - the low-health threshold of `calculateDamage`;
  - the move name `playGame` submits;
  - the way `handleAbilities` fills and hides the move buttons;
  - the button enabling of `enableButtons`.
- `Pokedex` — the page state the handlers change in place:
  - class `Card` is one player panel. Its move buttons are arrays: hidden
    flag, disabled flag, move text, DP text.
  - class `Page` holds the sprites, the two session tokens, the heading, the
    "hidden" class of every element the code toggles, and the two cards.
  - Every handler is a method whose `ensures` states the complete new state.
  - A remote exchange is split in two. The handler returns the request it
    sends. A `...Response` method takes the delivered response and runs the
    promise chain: status gate, then the handlers in order, stopping at the
    first failure.
- `Scenarios` — client code that drives a page through a battle using only
  the contracts above.

The code has none of the following safeguards, and neither has the model:

- There is no state guard. A second move while a turn is in flight, or a
  response arriving in the wrong view, is processed like any other.
- There is no "session active" flag. The tokens persist after a battle.
- HP values are taken as delivered. They are not checked to be non-increasing.
- Only the first whitespace character is removed from a move name.
- A rejected turn leaves the loading indicator shown, because the toggle that
  hides it comes after the status gate in the chain.
- A rejected battle start leaves the battle view switched on.
- Ending a battle clears the low-health marks and nothing else. Cards, HPs
  and tokens stay.

## Model

| member | source | states |
|---|---|---|
| Fetch.CheckStatus | hw3-pokedex-jhsu7178/pokedex.js:389-395 | A response is accepted iff its status is in [200, 300) or is 0. An accepted response yields its body. A rejected one yields the message "<status>: <statusText>". |
| Fetch.RejectionMessage | hw3-pokedex-jhsu7178/pokedex.js:393 | Definition of the rejection text "<status>: <statusText>"; characterised by RejectionCarriesStatus and RejectionsDistinguishStatus. |
| Fetch.RejectionCarriesStatus | hw3-pokedex-jhsu7178/pokedex.js:393 | The text before the first colon of a rejection message reads back as the status code. The status text follows the ": ". |
| Fetch.RejectionsDistinguishStatus | hw3-pokedex-jhsu7178/pokedex.js:393 | Two equal rejection messages come from the same status and status text. |
| Strings.Split | hw3-pokedex-jhsu7178/pokedex.js:76 | `split` always yields at least one piece, even for the empty string. |
| Strings.JoinSplit | hw3-pokedex-jhsu7178/pokedex.js:76 | Joining the pieces of a split with the separator gives back the original string, so no character is lost. |
| Strings.SplitJoin | hw3-pokedex-jhsu7178/pokedex.js:76 | Splitting a join of separator-free pieces gives back exactly those pieces. |
| Strings.SplitLength | hw3-pokedex-jhsu7178/pokedex.js:76-77 | A split yields one more piece than there are separators. |
| Strings.SplitNoSep | hw3-pokedex-jhsu7178/pokedex.js:78 | No piece of a split contains the separator. |
| Strings.IntToString | hw3-pokedex-jhsu7178/pokedex.js:393 | Definition of the decimal rendering of an integer (a status code, a DP value); characterised by IntToStringRoundTrip and IntToStringInjective. |
| Strings.IntToStringRoundTrip | hw3-pokedex-jhsu7178/pokedex.js:393 | The decimal rendering of every integer, negative ones included, parses back to that integer. |
| Strings.IntToStringInjective | hw3-pokedex-jhsu7178/pokedex.js:393 | Distinct integers render to distinct strings. |
| Catalog.NameOf | hw3-pokedex-jhsu7178/pokedex.js:78-79 | Definition of a line's field 1 (`split(":")[1]`), None when undefined; characterised by NameOfUndefinedIffNoColon and NameBetweenColons. |
| Catalog.IsStarter | hw3-pokedex-jhsu7178/pokedex.js:82-83 | Definition of the starter test (charmander, bulbasaur, squirtle); used by ParseListingEntries and EntryOfLine. |
| Catalog.Stringify | hw3-pokedex-jhsu7178/pokedex.js:89 | Definition of how an undefined name is written into an attribute: the string "undefined"; see ColonlessLineKept. |
| Catalog.ElementId | hw3-pokedex-jhsu7178/pokedex.js:89 | Definition of a sprite's id attribute; used by MarkFound and CreatePokeCard. |
| Catalog.ParseListing | hw3-pokedex-jhsu7178/pokedex.js:76-90 | Definition of the sprites `createImgs` appends; characterised by ParseListingEntries, ParseJoinedLines and TwoStartersListing, and produced by Page.CreateImgs. |
| Catalog.NameOfUndefinedIffNoColon | hw3-pokedex-jhsu7178/pokedex.js:78-79 | A line's name (field 1) is undefined exactly when the line has no colon. |
| Catalog.NameBetweenColons | hw3-pokedex-jhsu7178/pokedex.js:78-79 | The name is the text between the first and second colon. The ordinal and anything after a second colon are ignored. |
| Catalog.ParseListingEntries | hw3-pokedex-jhsu7178/pokedex.js:73-91 | There is one entry per line, so newlines + 1 entries, in line order. Entry i is named by line i's field 1. An entry is found iff its name is one of the three starters. |
| Catalog.ParseJoinedLines | hw3-pokedex-jhsu7178/pokedex.js:76-86 | A listing made of newline-joined lines parses line by line. |
| Catalog.EntryOfLine | hw3-pokedex-jhsu7178/pokedex.js:78-86 | The line "<ordinal>:<name>" gives an entry named <name>, found iff it is a starter. |
| Catalog.TwoStartersListing | hw3-pokedex-jhsu7178/pokedex.js:73-91 | "1:bulbasaur\n2:charmander" yields exactly two found entries, in that order. |
| Catalog.ColonlessLineKept | hw3-pokedex-jhsu7178/pokedex.js:78-89 | A colon-less line still makes a sprite. It is not found and its id is the string "undefined". |
| Catalog.MarkFound | hw3-pokedex-jhsu7178/pokedex.js:293-301 | Definition of the catalog after `addFoundPokemon`; characterised by MarkFoundExactly, MarkFoundIdempotent, MarkFoundUnknownId, MarkFoundMakesFound and MarkFoundMonotone, and produced by Page.AddFoundPokemon. |
| Catalog.MarkFoundExactly | hw3-pokedex-jhsu7178/pokedex.js:293-301 | Marking keeps the length, the order and every name. An entry becomes found iff it was found or its id equals the short name. Every other entry is unchanged. |
| Catalog.MarkFoundIdempotent | hw3-pokedex-jhsu7178/pokedex.js:293-301 | Marking the same short name twice equals marking it once. |
| Catalog.MarkFoundUnknownId | hw3-pokedex-jhsu7178/pokedex.js:295-300 | A short name that no sprite has as its id leaves the catalog unchanged. |
| Catalog.MarkFoundMakesFound | hw3-pokedex-jhsu7178/pokedex.js:293-301 | After marking, a found sprite with the short name exists iff the catalog has a sprite with that id. |
| Catalog.MarkFoundMonotone | hw3-pokedex-jhsu7178/pokedex.js:297 | Marking never un-finds a sprite. |
| Battle.Decide | hw3-pokedex-jhsu7178/pokedex.js:269-277 | Definition of the outcome `win` decides; characterised by DecideCases. |
| Battle.DecideCases | hw3-pokedex-jhsu7178/pokedex.js:268-278 | Lost iff player 1's HP is 0; Won iff it is not 0 and the opponent's is 0; otherwise undecided. A double knock-out is therefore a loss. |
| Battle.LowHealth | hw3-pokedex-jhsu7178/pokedex.js:247-259 | Definition of the low-health test, exact and without division; characterised by LowHealthIsPercentAtMostLow and LowHealthDownwardClosed. |
| Battle.LowHealthIsPercentAtMostLow | hw3-pokedex-jhsu7178/pokedex.js:247-259 | For a non-zero full HP, the exact integer test holds iff current / full * 100 <= 20 over the reals. |
| Battle.LowHealthDownwardClosed | hw3-pokedex-jhsu7178/pokedex.js:253-259 | For a positive full HP, any HP below a low one is low too. |
| Battle.StickyMarkMatchesCurrent | hw3-pokedex-jhsu7178/pokedex.js:253-259 | While the full HP is positive and the HP does not rise, the sticky low-health mark equals the test on the latest HP. |
| Battle.IsSpace | hw3-pokedex-jhsu7178/pokedex.js:203 | Definition of the characters `\s` matches (the full JavaScript whitespace set); used by FirstSpace. |
| Battle.Lower | hw3-pokedex-jhsu7178/pokedex.js:203 | Definition of `toLowerCase` on ASCII letters; see NormalizeMoveShape and the Left out line. |
| Battle.RemoveFirstSpace | hw3-pokedex-jhsu7178/pokedex.js:203 | Definition of `replace(/\s/, '')`; characterised through NormalizeMoveRemovesFirstSpace. |
| Battle.NormalizeMove | hw3-pokedex-jhsu7178/pokedex.js:203 | Definition of the submitted move name; characterised by NormalizeMoveRemovesFirstSpace, NormalizeMoveShape and TwoWordMoveName. |
| Battle.MoveNameFor | hw3-pokedex-jhsu7178/pokedex.js:202-206 | Definition of the `movename` field: "flee" for the flee button, else the normalised caption; used by Page.PlayGame. |
| Battle.FirstSpace | hw3-pokedex-jhsu7178/pokedex.js:203 | The position `\s` matches: no whitespace before it, whitespace at it, or the length when there is none. |
| Battle.NormalizeMoveRemovesFirstSpace | hw3-pokedex-jhsu7178/pokedex.js:203 | The submitted move name is the lower-cased caption with exactly its first whitespace character removed. All later characters are kept. |
| Battle.NormalizeMoveShape | hw3-pokedex-jhsu7178/pokedex.js:203 | The submitted name has no upper-case letter. It is one character shorter than the caption iff the caption contains whitespace. |
| Battle.TwoWordMoveName | hw3-pokedex-jhsu7178/pokedex.js:203 | A lower-case caption "<w1> <w2>" is submitted as "<w1><w2>". |
| Battle.DpText | hw3-pokedex-jhsu7178/pokedex.js:346-350 | Definition of a slot's DP text, empty for an absent or zero dp; characterised by DpTextShowsDp. |
| Battle.Fill | hw3-pokedex-jhsu7178/pokedex.js:342-351 | Definition of writing the moves into the leading slots, later slots unchanged; used by Card.HandleAbilities. |
| Battle.DpTextShowsDp | hw3-pokedex-jhsu7178/pokedex.js:346-350 | A DP text is shown iff the move's dp is present and non-zero. When shown, it ends in " DP" and the text before that reads back as the dp. |
| Battle.HiddenAfter | hw3-pokedex-jhsu7178/pokedex.js:330-340 | Definition of the hidden flags after a card; characterised by HiddenAfterExactIff and StaleHiddenSlot. |
| Battle.HiddenAfterExactIff | hw3-pokedex-jhsu7178/pokedex.js:330-340 | The button update hides exactly the buttons without a move iff the card has at least as many moves as buttons, or no button that receives a move was hidden before. |
| Battle.StaleHiddenSlot | hw3-pokedex-jhsu7178/pokedex.js:330-334 | After a card with fewer moves, a card with more moves (still fewer than the buttons) leaves a button hidden that holds one of its moves. |
| Battle.EnabledAfter | hw3-pokedex-jhsu7178/pokedex.js:159-167 | Definition of the disabled flags after `enableButtons`: a button stays disabled only if it is hidden; produced by Page.EnableButtons. |
| Pokedex.Page.ChosenCard | hw3-pokedex-jhsu7178/pokedex.js:100-104 | Definition of the card `addCard` fills: the opponent's while the pokedex is hidden, else player 1's; used by AddCard and the two response methods. |
| Pokedex.Card.HandleAbilities | hw3-pokedex-jhsu7178/pokedex.js:325-352 | Returns true iff the moves fit the buttons. The hidden flags become HiddenAfter. The first min(moves, buttons) slots get the move names and DP texts; the other slots keep theirs. |
| Pokedex.Page.constructor | hw3-pokedex-jhsu7178/pokedex.js:15-16 | A fresh page has undefined tokens, an empty catalog and the pokedex heading. The pokedex is shown and every battle element, the start button and the loading indicator are hidden. |
| Pokedex.Page.CreateImgs | hw3-pokedex-jhsu7178/pokedex.js:73-91 | The catalog becomes the old catalog followed by ParseListing of the listing. |
| Pokedex.Page.InitBoardResponse | hw3-pokedex-jhsu7178/pokedex.js:46-52 | An accepted listing is appended to the catalog. A rejected one yields the rejection message and leaves the catalog unchanged. |
| Pokedex.Page.AddFoundPokemon | hw3-pokedex-jhsu7178/pokedex.js:293-301 | The catalog becomes MarkFound of the old catalog and the short name. |
| Pokedex.Page.CreatePokeCard | hw3-pokedex-jhsu7178/pokedex.js:58-60 | A sprite click sends a request iff the sprite is found. The request names the sprite's id. |
| Pokedex.Page.AddCard | hw3-pokedex-jhsu7178/pokedex.js:98-114 | The card chosen by the pokedex's visibility (player 1's while the pokedex is shown) gets the name, the HP and the button update. The other card is unchanged. Fails iff the moves exceed the buttons. |
| Pokedex.Page.HandleStart | hw3-pokedex-jhsu7178/pokedex.js:183-191 | The start button ends up hidden iff the opponent's card is shown. |
| Pokedex.Page.CreatePokeCardResponse | hw3-pokedex-jhsu7178/pokedex.js:61-66 | On rejection both cards and the start button are unchanged. Otherwise the card chosen by the pokedex's visibility gets the name, the HP, the hidden flags of HiddenAfter and the move names and DP texts written into its leading slots; its low-health mark and disabled flags stay, and the other card is unchanged. Then `handleStart` runs unless the moves overflowed the buttons, which is the only other error. |
| Pokedex.Page.EnableButtons | hw3-pokedex-jhsu7178/pokedex.js:159-167 | Every visible player-1 move button becomes enabled. Hidden buttons keep their state. |
| Pokedex.Page.ResetHealth | hw3-pokedex-jhsu7178/pokedex.js:306-311 | Both low-health marks are cleared. |
| Pokedex.Page.LoadingScreen | hw3-pokedex-jhsu7178/pokedex.js:316-318 | The loading indicator's visibility is flipped. |
| Pokedex.Page.SwitchViews | hw3-pokedex-jhsu7178/pokedex.js:137-154 | Start button: sends a battle request naming player 1's card, sets the battle heading, flips the flee button and enables the visible moves. End-of-game button: clears the low-health marks, flips itself and the start button, sets the pokedex heading. Both flip the pokedex against the battle panels. No other flag changes. |
| Pokedex.Page.ToggleBattlePanels | hw3-pokedex-jhsu7178/pokedex.js:150-153 | The pokedex, the opponent's panel, player 1's HP line and the results container are flipped. The view invariant is kept. |
| Pokedex.Page.PreBattleViewResponse | hw3-pokedex-jhsu7178/pokedex.js:126-131 | On rejection, tokens, cards and start button are unchanged. Otherwise both tokens are stored and the opponent fills the chosen card exactly as in AddCard (name, HP, hidden flags, move names, DP texts; everything else on it stays), the other card is unchanged, and `handleStart` runs unless its moves overflow. |
| Pokedex.Page.PlayGame | hw3-pokedex-jhsu7178/pokedex.js:197-207 | The turn request carries both stored tokens ("undefined" before a battle has started) and the normalized move name or "flee". The loading indicator is flipped. |
| Pokedex.Page.Win | hw3-pokedex-jhsu7178/pokedex.js:268-287 | The heading follows Decide. A win marks the opponent found. A decided battle shows the end-of-game button, hides the flee button and disables all of player 1's moves. An undecided turn changes nothing. |
| Pokedex.Page.CalculateDamage | hw3-pokedex-jhsu7178/pokedex.js:242-262 | Both HPs become the delivered current HPs. A low-health mark is set when the side is at most 20 %, and is never cleared here. Then the effects of Win. |
| Pokedex.Page.ProcessTurn | hw3-pokedex-jhsu7178/pokedex.js:221-236 | Both turn-result lines are shown, then the effects of CalculateDamage. |
| Pokedex.Page.PlayGameResponse | hw3-pokedex-jhsu7178/pokedex.js:209-214 | A rejected turn changes no flag, heading, catalog or card, so the loading indicator stays shown. An accepted turn gives the complete new state in terms of Decide, MarkFound and LowHealth, with the loading indicator flipped back. |

## Left out

- Networking and promises (`fetch`, the promise chain, `console.error`). The model covers what the code does after a response is delivered. A transport failure means no `...Response` method runs.
- `JSON.parse` failures. Response bodies are structured values, so a malformed payload is not modelled.
- The narration text of the turn-result lines (`processTurn`, lines 222-231). It is only shown, and the model records only that both lines become visible.
- Image sources, alt texts, type and weakness icons, photos, descriptions and the "HP" suffix. These are display strings built from the same fields the model keeps.
- Health-bar widths (`calculateDamage` lines 251-252, `resetHealth` lines 309-310). They are display-only.
- Event-listener wiring (`initialize`) and the DOM helpers `id`, `qs` and `qsa`. The browser delivers a click only to a visible, enabled control. The handlers do not check this themselves, so neither do the methods. `CreatePokeCard` reflects the one gate the code does set up, the listener on found sprites only.
- The page markup is not part of this model. The initial layout in the `Page` constructor and the number of move buttons are assumptions of the model. So is the structure of a move button: `playGame` reads the text of the button's first child, and the model takes that to be the button's `.move` text, the slot `handleAbilities` writes the move name into.
- Battle.Lower: lower-cases the ASCII letters only, whereas `toLowerCase` also maps other Unicode letters. Move names from the service are ASCII.
- Battle.LowHealth: decides `current / full * 100 <= 20` exactly over the rationals, whereas the code uses floating point. The two can differ only where rounding crosses the 20 % boundary.
- Strings.IntToString: JavaScript numbers are doubles. The model's integers are unbounded, and its rendering differs from JavaScript's for magnitudes of 10^21 and above, where JavaScript switches to exponent notation.
- The opponent's move buttons are filled but never enabled. `enableButtons` touches only player 1's buttons, and the model does the same.
