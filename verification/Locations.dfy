/** Source locations and their order, as sort keys use it. */
module Locations {
  import opened Orders

  datatype Location = Location(file: string, line: nat, column: nat)

  predicate PlaceLe(x: Location, y: Location) {
    if x.file != y.file then StringLe(x.file, y.file)
    else if x.line != y.line then x.line < y.line
    else x.column <= y.column
  }

  lemma PlaceLeIsTotal(x: Location, y: Location)
    ensures PlaceLe(x, y) || PlaceLe(y, x)
  {
    StringLeTotal(x.file, y.file);
  }

  lemma PlaceLeIsTransitive(x: Location, y: Location, z: Location)
    requires PlaceLe(x, y) && PlaceLe(y, z)
    ensures PlaceLe(x, z)
  {
    if x.file != y.file && y.file != z.file {
      StringLeTransitive(x.file, y.file, z.file);
      if x.file == z.file { StringLeAntisymmetric(x.file, y.file); }
    }
  }
}
