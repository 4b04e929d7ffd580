/** The FROM clause: the static `from_t` and the run-time extensible
    `dynamic_from_t` (include/sqlpp11/from.h). A table or join is represented
    by the text its own serializer produces. */
module From {
  import opened Strings

  /** The tables of a static FROM clause; the library refuses to instantiate
      one without any table. */
  type TableList = ts: seq<string> | |ts| > 0 witness [""]

  datatype FromClause = FromClause(tables: TableList)

  /** The text `from_t::serialize` appends. */
  function FromText(f: FromClause): string
  {
    " FROM " + Join(f.tables, ",")
  }

  lemma KeywordHasNoComma()
    ensures Count(" FROM ", ',') == 0
  {
    assert ',' !in " FROM ";
    assert ',' !in multiset(" FROM ");
  }

  /** The static clause's output is the keyword followed by its first table
      and, after a ',', each later table. */
  lemma FromTextShape(f: FromClause)
    ensures FromText(f) == " FROM " + f.tables[0] + Prefixed(f.tables[1..], ",")
  {
  }

  /** With no ',' inside the table texts, the static clause holds exactly one
      fewer commas than tables. */
  lemma FromCommaCount(f: FromClause)
    requires FreeOf(f.tables, ',')
    ensures Count(FromText(f), ',') == |f.tables| - 1
  {
    var body := Join(f.tables, ",");
    JoinSeparatorCount(f.tables, ',');
    CountAppend(" FROM ", body, ',');
    KeywordHasNoComma();
  }

  /** What `dynamic_from_t::serialize` promises: nothing at all when there is
      neither a static nor a dynamic table, otherwise a single keyword followed
      by all tables, static ones first, separated by ','. */
  function DynamicFromText(statics: seq<string>, dynamics: seq<string>): string
  {
    if |statics| == 0 && |dynamics| == 0 then "" else " FROM " + Join(statics + dynamics, ",")
  }

  /** With neither static nor dynamic tables the clause emits nothing at all,
      and otherwise it emits the keyword. */
  lemma DynamicFromSuppressed(statics: seq<string>, dynamics: seq<string>)
    ensures DynamicFromText(statics, dynamics) == "" <==> |statics| == 0 && |dynamics| == 0
    ensures |statics| + |dynamics| > 0 ==> DynamicFromText(statics, dynamics)[..6] == " FROM "
  {
  }

  /** With static tables, every dynamic table is preceded by ','. */
  lemma DynamicFromAfterStatics(statics: seq<string>, dynamics: seq<string>)
    requires |statics| > 0
    ensures DynamicFromText(statics, dynamics) == FromText(FromClause(statics)) + Prefixed(dynamics, ",")
  {
    JoinAppend(statics, dynamics, ",");
  }

  /** Without static tables, the first dynamic table gets no leading ',' and
      each later one gets one. */
  lemma DynamicFromFirstDynamic(statics: seq<string>, dynamics: seq<string>)
    requires |statics| == 0 && |dynamics| > 0
    ensures DynamicFromText(statics, dynamics) == " FROM " + dynamics[0] + Prefixed(dynamics[1..], ",")
  {
    assert statics + dynamics == dynamics;
  }

  /** N >= 1 tables whose texts hold no ',' are separated by exactly N - 1 commas. */
  lemma DynamicFromCommaCount(statics: seq<string>, dynamics: seq<string>)
    requires |statics| + |dynamics| > 0 && FreeOf(statics + dynamics, ',')
    ensures Count(DynamicFromText(statics, dynamics), ',') == |statics| + |dynamics| - 1
  {
    JoinSeparatorCount(statics + dynamics, ',');
    CountAppend(" FROM ", Join(statics + dynamics, ","), ',');
    KeywordHasNoComma();
  }

  /** A dynamic clause with static tables only says the same as the static clause. */
  lemma DynamicFromWithoutAdditions(statics: TableList)
    ensures DynamicFromText(statics, []) == FromText(FromClause(statics))
  {
    assert statics + [] == statics;
  }

  /** One turn of the loop in `DynamicFrom.Serialize`: appending the next
      dynamic table, after a ',' unless nothing was written yet, extends the
      output by one table. */
  lemma SerializeStep(statics: seq<string>, dynamics: seq<string>, i: nat, out: string)
    requires i < |dynamics|
    requires out == " FROM " + Join(statics + dynamics[..i], ",")
    ensures |statics| + i == 0 ==> out + dynamics[i] == " FROM " + Join(statics + dynamics[..i + 1], ",")
    ensures |statics| + i != 0 ==> out + "," + dynamics[i] == " FROM " + Join(statics + dynamics[..i + 1], ",")
  {
    var done := statics + dynamics[..i];
    assert statics + dynamics[..i + 1] == done + [dynamics[i]];
    JoinStep(done, dynamics[i], ",");
    if |statics| + i == 0 {
      Associative(" FROM ", Join(done, ","), dynamics[i]);
    } else {
      Associative(" FROM ", Join(done, ","), ",");
      Associative(" FROM ", Join(done, ",") + ",", dynamics[i]);
    }
  }

  /** `dynamic_from_t`: a fixed tuple of tables plus a vector appended to at run time. */
  class DynamicFrom {
    var tables: seq<string>
    var dynamicTables: seq<string>

    constructor (tables: seq<string>)
      ensures this.tables == tables && dynamicTables == []
    {
      this.tables := tables;
      dynamicTables := [];
    }

    /** `add`: append one table at the end of the dynamic list. */
    method Add(table: string)
      modifies this
      ensures dynamicTables == old(dynamicTables) + [table]
      ensures tables == old(tables)
    {
      dynamicTables := dynamicTables + [table];
    }

    /** `serialize`: the keyword, the static tables, then each dynamic table,
        preceded by ',' unless it is the very first table. */
    method Serialize() returns (out: string)
      ensures out == DynamicFromText(tables, dynamicTables)
    {
      var statics, dynamics := tables, dynamicTables;
      if |statics| == 0 && |dynamics| == 0 {
        return "";
      }
      out := " FROM " + Join(statics, ",");
      var first := |statics| == 0;
      var i := 0;
      assert statics + dynamics[..i] == statics;
      while i < |dynamics|
        invariant 0 <= i <= |dynamics|
        invariant first <==> |statics| + i == 0
        invariant out == " FROM " + Join(statics + dynamics[..i], ",")
      {
        var table := dynamics[i];
        SerializeStep(statics, dynamics, i, out);
        if !first {
          out := out + ",";
        }
        out := out + table;
        first := false;
        i := i + 1;
      }
      assert dynamics[..i] == dynamics;
    }
  }

  /** Building a dynamic clause table by table and serializing it gives the
      static tables followed by the added ones, in the order they were added. */
  method AddAllThenSerialize(f: DynamicFrom, ts: seq<string>) returns (out: string)
    modifies f
    ensures f.tables == old(f.tables) && f.dynamicTables == old(f.dynamicTables) + ts
    ensures out == DynamicFromText(old(f.tables), old(f.dynamicTables) + ts)
  {
    var i := 0;
    while i < |ts|
      invariant 0 <= i <= |ts|
      invariant f.tables == old(f.tables)
      invariant f.dynamicTables == old(f.dynamicTables) + ts[..i]
    {
      f.Add(ts[i]);
      assert ts[..i + 1] == ts[..i] + [ts[i]];
      i := i + 1;
    }
    assert ts[..i] == ts;
    out := f.Serialize();
  }
}
