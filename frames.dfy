/** The data frame `df` of `main`, which gains its classification columns in
    place. */
module Frames {
  import opened Wrappers
  import opened Tables

  class Frame {
    var header: Row
    var rows: seq<Row>

    predicate Valid()
      reads this
    {
      Grid(header, rows).Rectangular()
    }

    /** The table the frame currently holds. */
    function Value(): Table
      reads this
      requires Valid()
    {
      Grid(header, rows)
    }

    constructor (t: Table)
      ensures Valid() && Value() == t
    {
      header := t.header;
      rows := t.rows;
    }

    /** `len(df)` */
    function Length(): nat
      reads this
    {
      |rows|
    }

    /** `df[name]` */
    function Get(name: string): Option<seq<Cell>>
      reads this
      requires Valid()
    {
      Column(Value(), name)
    }

    /** `df[name] = values` */
    method Set(name: string, values: seq<Cell>)
      requires Valid() && |values| == |rows|
      modifies this
      ensures Valid()
      ensures Value() == WithColumn(old(Value()), name, values)
      ensures Length() == old(Length())
      ensures Get(name) == Some(values)
      ensures forall other :: other != name ==> Get(other) == old(Get(other))
    {
      var t := WithColumn(Value(), name, values);
      WithColumnSets(Value(), name, values);
      forall other | other != name
        ensures Column(t, other) == Column(Value(), other)
      {
        WithColumnKeeps(Value(), name, values, other);
      }
      header, rows := t.header, t.rows;
    }
  }
}
