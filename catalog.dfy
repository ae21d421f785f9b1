/**
  The pattern catalog of shapes_and_seeds.py: named pattern texts in the
  format of `PatternFormat` (a blank first line, then rows of '0' and '1').
  Seeds are full-board starting layouts; entities are small shapes that can
  be inserted at a clicked cell. A lookup of a name the catalog does not
  know yields `None`, as the source's `if`/`elif` chains fall through.
 */
module Catalog {
  import opened Wrappers
  import opened PatternFormat

  // Row literals, in the order the source lists them (shapes_and_seeds.py:8-22,
  // 26-41, 47-59, 63-65).

  const PulsarSeedRows: seq<string> := [
    "0000000000000000000000000000000",
    "0000000000000000000000000000000",
    "0000111000111000000011100011100",
    "0000000000000000000000000000000",
    "0010000101000010001000010100001",
    "0010000101000010001000010100001",
    "0010000101000010001000010100001",
    "0000111000111000000011100011100",
    "0000000000000000000000000000000",
    "0000111000111000000011100011100",
    "0010000101000010001000010100001",
    "0010000101000010001000010100001",
    "0010000101000010001000010100001",
    "0000000000000000000000000000000",
    "0000111000111000000011100011100"
  ]

  const PentaDecathlonSeedRows: seq<string> := [
    "000000000000000000000000000000000000000",
    "000000000000000000000000000000000000000",
    "000000000000000000000000000000000000000",
    "000000000000000000000000000000000000000",
    "000000111000000000011100000000001110000",
    "000000010000000000001000000000000100000",
    "000000010000000000001000000000000100000",
    "000000111000000000011100000000001110000",
    "000000000000000000000000000000000000000",
    "000000111000000000011100000000001110000",
    "000000111000000000011100000000001110000",
    "000000000000000000000000000000000000000",
    "000000111000000000011100000000001110000",
    "000000010000000000001000000000000100000",
    "000000010000000000001000000000000100000",
    "000000111000000000011100000000001110000"
  ]

  const PulsarEntityRows: seq<string> := [
    "0011100011100",
    "0000000000000",
    "1000010100001",
    "1000010100001",
    "1000010100001",
    "0011100011100",
    "0000000000000",
    "0011100011100",
    "1000010100001",
    "1000010100001",
    "1000010100001",
    "0000000000000",
    "0011100011100"
  ]

  const RPentominoRows: seq<string> := [
    "0110",
    "1100",
    "0100"
  ]

  /** The text of a pattern whose rows are `rows`: a blank first line, then one line per row. */
  function PatternText(rows: seq<string>): (text: string)
    ensures text != [] && text[0] == '\n' && text[|text| - 1] == '\n'
  {
    Terminated([""] + rows)
  }

  /** `get_seed` (shapes_and_seeds.py:5-42). */
  function GetSeed(name: string): (text: Option<string>)
    ensures text.Some? ==> text.value != [] && text.value[0] == '\n'
  {
    if name == "Pulsar" then Some(PatternText(PulsarSeedRows))
    else if name == "Penta-decathlon" then Some(PatternText(PentaDecathlonSeedRows))
    else None
  }

  /** `get_entity` (shapes_and_seeds.py:44-69). */
  function GetEntity(name: string): (text: Option<string>)
    ensures text.Some? ==> text.value != [] && text.value[0] == '\n'
  {
    if name == "Pulsar" then Some(PatternText(PulsarEntityRows))
    else if name == "R-pentomino" then Some(PatternText(RPentominoRows))
    else if name == "" then Some(PatternText([]))
    else None
  }

  /**
    A well-formed pattern text of `height` rows of `width` characters: its
    first line is blank and every later line is a row of '0' and '1'.
   */
  predicate WellFormed(text: string, height: nat, width: nat)
    ensures WellFormed(text, height, width) ==> text != [] && text[0] == '\n'
  {
    var lines := SplitLines(text);
    lines != [] && lines[0] == "" && Binary(lines[1..]) && Rectangular(lines[1..], height, width)
  }

  lemma {:induction false} PatternTextWellFormed(rows: seq<string>, height: nat, width: nat)
    requires Binary(rows) && Rectangular(rows, height, width)
    ensures WellFormed(PatternText(rows), height, width)
    ensures Rows(PatternText(rows)) == rows
  {
    BinaryRowsAreDigits(rows);
    assert NoLineFeeds([""] + rows) by {
      forall i | 0 <= i < |[""] + rows|
        ensures '\n' !in ([""] + rows)[i]
      {
        if i > 0 { assert ([""] + rows)[i] == rows[i - 1]; }
      }
    }
    SplitTerminated([""] + rows);
    assert ([""] + rows)[1..] == rows;
  }

  lemma PulsarSeedLiteral()
    ensures Binary(PulsarSeedRows) && Rectangular(PulsarSeedRows, 15, 31)
  {
  }

  lemma PentaDecathlonSeedLiteral()
    ensures Binary(PentaDecathlonSeedRows) && Rectangular(PentaDecathlonSeedRows, 16, 39)
  {
  }

  lemma PulsarEntityLiteral()
    ensures Binary(PulsarEntityRows) && Rectangular(PulsarEntityRows, 13, 13)
  {
  }

  lemma RPentominoLiteral()
    ensures Binary(RPentominoRows) && Rectangular(RPentominoRows, 3, 4)
  {
  }

  /**
    The seeds: exactly 'Pulsar' (15 rows of 31) and 'Penta-decathlon' (16
    rows of 39) are known, and each is a well-formed text.
   */
  lemma SeedCatalog(name: string)
    ensures GetSeed(name).Some? <==> name == "Pulsar" || name == "Penta-decathlon"
    ensures name == "Pulsar" ==> WellFormed(GetSeed(name).value, 15, 31)
    ensures name == "Penta-decathlon" ==> WellFormed(GetSeed(name).value, 16, 39)
    ensures GetSeed(name).Some? ==> Binary(Rows(GetSeed(name).value)) && DigitsOnly(Rows(GetSeed(name).value))
  {
    PulsarSeedLiteral();
    PentaDecathlonSeedLiteral();
    PatternTextWellFormed(PulsarSeedRows, 15, 31);
    PatternTextWellFormed(PentaDecathlonSeedRows, 16, 39);
    BinaryRowsAreDigits(PulsarSeedRows);
    BinaryRowsAreDigits(PentaDecathlonSeedRows);
  }

  /**
    The entities: exactly 'Pulsar' (13 by 13), 'R-pentomino' (3 rows of 4) and
    '' (no rows at all once the blank first line is dropped).
   */
  lemma EntityCatalog(name: string)
    ensures GetEntity(name).Some? <==> name == "Pulsar" || name == "R-pentomino" || name == ""
    ensures name == "Pulsar" ==> WellFormed(GetEntity(name).value, 13, 13)
    ensures name == "R-pentomino" ==> WellFormed(GetEntity(name).value, 3, 4)
    ensures name == "" ==> WellFormed(GetEntity(name).value, 0, 0) && Rows(GetEntity(name).value) == []
    ensures GetEntity(name).Some? ==> Binary(Rows(GetEntity(name).value)) && DigitsOnly(Rows(GetEntity(name).value))
  {
    PulsarEntityLiteral();
    RPentominoLiteral();
    PatternTextWellFormed(PulsarEntityRows, 13, 13);
    PatternTextWellFormed(RPentominoRows, 3, 4);
    PatternTextWellFormed([], 0, 0);
    BinaryRowsAreDigits(PulsarEntityRows);
    BinaryRowsAreDigits(RPentominoRows);
  }
}
