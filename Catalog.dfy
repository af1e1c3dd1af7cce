/**
  The pokedex catalog: the sprites built from the listing `"<ordinal>:<name>"`
  lines (`createImgs`), which of them are found (clickable), and the update a
  won battle makes (`addFoundPokemon`). A sprite is modelled by its name and
  its found flag; its id attribute is derived from the name.
*/
module Catalog {
  import opened Wrappers
  import opened Strings

  /** One sprite: `name` is field 1 of its listing line, undefined when the line has no colon. */
  datatype Entry = Entry(name: Option<string>, found: bool)

  /** `String(v)`: how JavaScript writes a possibly undefined value into an attribute or a form field. */
  function Stringify(v: Option<string>): string
  {
    if v.Some? then v.value else "undefined"
  }

  /** The id attribute of the sprite (`setAttribute("id", pokemonName)`). */
  function ElementId(e: Entry): string
  {
    Stringify(e.name)
  }

  /** `line.split(":")[1]`. */
  function NameOf(line: string): Option<string>
  {
    var fields := Split(line, ':');
    if |fields| >= 2 then Some(fields[1]) else None
  }

  /** The three starters are found from the beginning. */
  predicate IsStarter(name: Option<string>)
  {
    name == Some("charmander") || name == Some("bulbasaur") || name == Some("squirtle")
  }

  function EntryOf(line: string): Entry
  {
    var name := NameOf(line);
    Entry(name, IsStarter(name))
  }

  /** The entries `createImgs` appends for a listing, one per line, in listing order. */
  function ParseListing(listing: string): seq<Entry>
  {
    var lines := Split(listing, '\n');
    seq(|lines|, i requires 0 <= i < |lines| => EntryOf(lines[i]))
  }

  /** A line's name is undefined exactly when the line has no colon. */
  lemma NameOfUndefinedIffNoColon(line: string)
    ensures NameOf(line).None? <==> ':' !in line
  {
    SplitSingleIffNoSep(line, ':');
  }

  /**
    The name is the text between the first and the second colon: the ordinal
    before it and anything from a second colon on are ignored.
  */
  lemma NameBetweenColons(ordinal: string, name: string, tail: string)
    requires ':' !in ordinal && ':' !in name
    requires tail == [] || tail[0] == ':'
    ensures NameOf(ordinal + ":" + name + tail) == Some(name)
  {
    assert ordinal + ":" + name + tail == ordinal + [':'] + (name + tail);
    SplitAtFirst(ordinal, ':', name + tail);
    if tail == [] {
      assert name + tail == name;
      SplitNoSepIsSingle(name, ':');
    } else {
      assert name + tail == name + [':'] + tail[1..];
      SplitAtFirst(name, ':', tail[1..]);
    }
  }

  /**
    `createImgs` makes one entry per newline-separated line, in order; each is
    named by that line's field 1, and exactly the starters begin found.
  */
  lemma ParseListingEntries(listing: string)
    ensures var lines := Split(listing, '\n');
      var entries := ParseListing(listing);
      |entries| == Count(listing, '\n') + 1 &&
      forall i :: 0 <= i < |entries| ==>
        entries[i].name == NameOf(lines[i]) &&
        (entries[i].found <==> IsStarter(entries[i].name))
  {
    SplitLength(listing, '\n');
  }

  /** A listing written as newline-joined lines parses line by line. */
  lemma ParseJoinedLines(lines: seq<string>)
    requires |lines| >= 1 && NoSep(lines, '\n')
    ensures ParseListing(Join(lines, '\n')) == seq(|lines|, i requires 0 <= i < |lines| => EntryOf(lines[i]))
  {
    SplitJoin(lines, '\n');
  }

  /** A line `"<ordinal>:<name>"` gives an entry with that name, found iff it is a starter. */
  lemma {:induction false} EntryOfLine(ordinal: string, name: string)
    requires ':' !in ordinal && ':' !in name
    ensures EntryOf(ordinal + ":" + name) == Entry(Some(name), IsStarter(Some(name)))
  {
    NameBetweenColons(ordinal, name, "");
    assert ordinal + ":" + name + "" == ordinal + ":" + name;
  }

  /** The listing `"1:bulbasaur\n2:charmander"` yields two entries, both found. */
  lemma {:induction false} TwoStartersListing(first: string, second: string)
    requires first == "bulbasaur" && second == "charmander"
    ensures ParseListing("1:" + first + "\n2:" + second) ==
      [Entry(Some(first), true), Entry(Some(second), true)]
  {
    var one, two := "1", "2";
    var a, b := one + ":" + first, two + ":" + second;
    var lines := [a, b];
    assert Join(lines, '\n') == "1:" + first + "\n2:" + second by {
      assert lines[1..] == [b];
    }
    assert '\n' !in a && '\n' !in b;
    ParseJoinedLines(lines);
    EntryOfLine(one, first);
    EntryOfLine(two, second);
  }

  /** A line without a colon is kept, as an unfound entry whose id is "undefined". */
  lemma ColonlessLineKept(listing: string, k: nat)
    requires k < |Split(listing, '\n')| && ':' !in Split(listing, '\n')[k]
    ensures k < |ParseListing(listing)|
    ensures ParseListing(listing)[k] == Entry(None, false)
    ensures ElementId(ParseListing(listing)[k]) == "undefined"
  {
    NameOfUndefinedIffNoColon(Split(listing, '\n')[k]);
  }

  // ---------------------------------------------------------------------
  // Marking the defeated opponent found
  // ---------------------------------------------------------------------

  function Mark(e: Entry, id: string): Entry
  {
    if ElementId(e) == id then e.(found := true) else e
  }

  /** The catalog after `addFoundPokemon` for an opponent with short name `id`. */
  function MarkFound(entries: seq<Entry>, id: string): seq<Entry>
  {
    seq(|entries|, i requires 0 <= i < |entries| => Mark(entries[i], id))
  }

  /** Some sprite with this id is found (clickable). */
  predicate IsFound(entries: seq<Entry>, id: string)
  {
    exists i :: 0 <= i < |entries| && ElementId(entries[i]) == id && entries[i].found
  }

  /**
    Exactly the entries whose id equals the short name become found; names,
    order and every other entry's flag are unchanged.
  */
  lemma MarkFoundExactly(entries: seq<Entry>, id: string)
    ensures var r := MarkFound(entries, id);
      |r| == |entries| &&
      forall i :: 0 <= i < |r| ==>
        r[i].name == entries[i].name &&
        (r[i].found <==> entries[i].found || ElementId(entries[i]) == id) &&
        (ElementId(entries[i]) != id ==> r[i] == entries[i])
  {
  }

  /** Marking twice is marking once. */
  lemma MarkFoundIdempotent(entries: seq<Entry>, id: string)
    ensures MarkFound(MarkFound(entries, id), id) == MarkFound(entries, id)
  {
  }

  /** An id that no sprite has changes nothing. */
  lemma MarkFoundUnknownId(entries: seq<Entry>, id: string)
    requires forall i :: 0 <= i < |entries| ==> ElementId(entries[i]) != id
    ensures MarkFound(entries, id) == entries
  {
  }

  /** After the marking, the opponent is found iff the catalog has a sprite with its id. */
  lemma MarkFoundMakesFound(entries: seq<Entry>, id: string)
    ensures IsFound(MarkFound(entries, id), id) <==>
      exists i :: 0 <= i < |entries| && ElementId(entries[i]) == id
  {
    var r := MarkFound(entries, id);
    if exists i :: 0 <= i < |entries| && ElementId(entries[i]) == id {
      var i :| 0 <= i < |entries| && ElementId(entries[i]) == id;
      assert ElementId(r[i]) == id && r[i].found;
    }
  }

  /** A found entry stays found: marking never clears a flag. */
  lemma MarkFoundMonotone(entries: seq<Entry>, id: string, other: string)
    requires IsFound(entries, other)
    ensures IsFound(MarkFound(entries, id), other)
  {
    var i :| 0 <= i < |entries| && ElementId(entries[i]) == other && entries[i].found;
    assert MarkFound(entries, id)[i].found;
  }
}
