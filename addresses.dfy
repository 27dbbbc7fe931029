/**
 * The device address table (`listIPs`) and its loader `readIPCFG`: every
 * ip.cfg line `address,id` maps the id, read with Atoi with its error
 * discarded, to the address, and a later line with the same id overwrites an
 * earlier one.
 */
module Addresses {
  import opened Options
  import opened GoStrings
  import opened GoStrconv

  /** Every line has a comma; on a line without one, `inData[1]` is out of range and Go panics. */
  predicate Loadable(lines: seq<string>) {
    forall i :: 0 <= i < |lines| ==> !CommaFree(lines[i])
  }

  /**
   * The id a line stores its address under: Atoi of the second field. That is
   * 0 when the field is not a number, unless the field's digits before its
   * first non-digit exceed 2^64 - 1, in which case Atoi saturates.
   */
  function LineId(line: string): (id: int)
    requires !CommaFree(line)
    ensures MinInt64 <= id <= MaxInt64
  {
    Atoi(SplitComma(line)[1]).value
  }

  /** The address a line stores: the text before its first comma. */
  function LineAddress(line: string): (address: string)
    requires !CommaFree(line)
    ensures CommaFree(address)
    ensures |address| < |line| && line[..|address|] == address && line[|address|] == ','
  {
    var fields := SplitComma(line);
    JoinSplitComma(line);
    assert line == fields[0] + "," + JoinComma(fields[1..]);
    fields[0]
  }

  /**
   * A line made of two or more comma-free fields stores its first field under
   * Atoi of its second; the fields after the second play no part.
   */
  lemma LineOfFields(fields: seq<string>)
    requires |fields| >= 2 && AllCommaFree(fields)
    ensures !CommaFree(JoinComma(fields))
    ensures LineId(JoinComma(fields)) == Atoi(fields[1]).value
    ensures LineAddress(JoinComma(fields)) == fields[0]
  {
    SplitJoinComma(fields);
  }

  /** A line `address,id` written from an int64 id and a comma-free address loads exactly that pair. */
  lemma LineOfFormattedId(address: string, id: int)
    requires CommaFree(address) && MinInt64 <= id <= MaxInt64
    ensures !CommaFree(address + "," + FormatInt(id))
    ensures LineId(address + "," + FormatInt(id)) == id
    ensures LineAddress(address + "," + FormatInt(id)) == address
  {
    var digits := FormatInt(id);
    assert CommaFree(digits) by {
      if id < 0 {
        assert digits == "-" + DecimalDigits(-id);
      }
    }
    assert JoinComma([address, digits]) == address + "," + digits by {
      assert JoinComma([address, digits][1..]) == digits;
    }
    LineOfFields([address, digits]);
    AtoiFormatInt(id);
  }

  /** The pair a line contributes: its id and its address. */
  function LineEntry(line: string): (int, string)
    requires !CommaFree(line)
  {
    (LineId(line), LineAddress(line))
  }

  /** The pairs of the lines, in line order. */
  function Entries(lines: seq<string>): seq<(int, string)>
    requires Loadable(lines)
  {
    seq(|lines|, j requires 0 <= j < |lines| && Loadable(lines) => LineEntry(lines[j]))
  }

  /** The pairs of two blocks of lines read one after the other are those of the first block, then the second. */
  lemma EntriesAppend(a: seq<string>, b: seq<string>)
    requires Loadable(a) && Loadable(b)
    ensures Loadable(a + b)
    ensures Entries(a + b) == Entries(a) + Entries(b)
  {
    assert forall j :: 0 <= j < |a + b| ==> (a + b)[j] == if j < |a| then a[j] else b[j - |a|];
  }

  /** `table[id] = address` for every pair, in order. */
  function InsertAll(table: map<int, string>, entries: seq<(int, string)>): (table': map<int, string>)
    ensures table.Keys <= table'.Keys
    ensures entries != [] ==> entries[|entries| - 1].0 in table' && table'[entries[|entries| - 1].0] == entries[|entries| - 1].1
    decreases |entries|
  {
    if entries == [] then table
    else
      var (id, address) := entries[|entries| - 1];
      InsertAll(table, entries[..|entries| - 1])[id := address]
  }

  /** The table after the lines have been inserted into `table` in order. */
  function LoadLines(table: map<int, string>, lines: seq<string>): (loaded: map<int, string>)
    requires Loadable(lines)
    ensures table.Keys <= loaded.Keys
    ensures lines == [] ==> loaded == table
  {
    InsertAll(table, Entries(lines))
  }

  /** After the insertions the table holds the ids it held before and the ids of the pairs, and no others. */
  lemma {:induction false} InsertAllKeys(table: map<int, string>, entries: seq<(int, string)>, id: int)
    ensures id in InsertAll(table, entries) <==> id in table || exists j :: 0 <= j < |entries| && entries[j].0 == id
    decreases |entries|
  {
    if entries != [] {
      var n := |entries| - 1;
      var prefix := entries[..n];
      InsertAllKeys(table, prefix, id);
      if j :| 0 <= j < |entries| && entries[j].0 == id {
        if j < n {
          assert prefix[j].0 == id;
        }
      }
      if j :| 0 <= j < n && prefix[j].0 == id {
        assert entries[j].0 == id;
      }
    }
  }

  /** The last pair with a given id decides the address stored under it. */
  lemma {:induction false} InsertAllLastWins(table: map<int, string>, entries: seq<(int, string)>, i: nat)
    requires i < |entries|
    requires forall j :: i < j < |entries| ==> entries[j].0 != entries[i].0
    ensures entries[i].0 in InsertAll(table, entries)
    ensures InsertAll(table, entries)[entries[i].0] == entries[i].1
    decreases |entries|
  {
    if i < |entries| - 1 {
      var prefix := entries[..|entries| - 1];
      assert prefix[i] == entries[i];
      assert forall j :: i < j < |prefix| ==> prefix[j] == entries[j];
      InsertAllLastWins(table, prefix, i);
    }
  }

  /** An id that no pair carries keeps whatever the table held for it before. */
  lemma {:induction false} InsertAllKeeps(table: map<int, string>, entries: seq<(int, string)>, id: int)
    requires forall j :: 0 <= j < |entries| ==> entries[j].0 != id
    ensures id in InsertAll(table, entries) <==> id in table
    ensures id in table ==> InsertAll(table, entries)[id] == table[id]
    decreases |entries|
  {
    if entries != [] {
      var prefix := entries[..|entries| - 1];
      assert forall j :: 0 <= j < |prefix| ==> prefix[j] == entries[j];
      InsertAllKeeps(table, prefix, id);
    }
  }

  /** The loaded table holds the ids it held before and the ids of the lines, and no others. */
  lemma LoadLinesKeys(table: map<int, string>, lines: seq<string>, id: int)
    requires Loadable(lines)
    ensures id in LoadLines(table, lines) <==> id in table || exists j :: 0 <= j < |lines| && LineId(lines[j]) == id
  {
    var entries := Entries(lines);
    InsertAllKeys(table, entries, id);
    if j :| 0 <= j < |lines| && LineId(lines[j]) == id {
      assert entries[j].0 == id;
    }
  }

  /** The last line with a given id decides the address stored under it. */
  lemma LoadLinesLastWins(table: map<int, string>, lines: seq<string>, i: nat)
    requires Loadable(lines) && i < |lines|
    requires forall j :: i < j < |lines| ==> LineId(lines[j]) != LineId(lines[i])
    ensures LineId(lines[i]) in LoadLines(table, lines)
    ensures LoadLines(table, lines)[LineId(lines[i])] == LineAddress(lines[i])
  {
    InsertAllLastWins(table, Entries(lines), i);
  }

  /** An id that no line carries keeps whatever the table held for it before. */
  lemma LoadLinesKeeps(table: map<int, string>, lines: seq<string>, id: int)
    requires Loadable(lines)
    requires forall j :: 0 <= j < |lines| ==> LineId(lines[j]) != id
    ensures id in LoadLines(table, lines) <==> id in table
    ensures id in table ==> LoadLines(table, lines)[id] == table[id]
  {
    InsertAllKeeps(table, Entries(lines), id);
  }

  /** The lookup the rest of the server needs: the address for an id, or none. */
  function Resolve(table: map<int, string>, id: int): (address: Option<string>)
    ensures address.Some? <==> id in table
    ensures address.Some? ==> address.value == table[id]
  {
    if id in table then Some(table[id]) else None
  }

  /** The global `listIPs`, filled once at startup by Load. */
  class AddressTable {
    var ips: map<int, string>

    /** `make(map[int]string)`: the table starts empty. */
    constructor()
      ensures ips == map[]
    {
      ips := map[];
    }

    /** `readIPCFG`: inserts the pair of every line, in order, into the table. */
    method Load(lines: seq<string>)
      requires Loadable(lines)
      modifies this
      ensures ips == LoadLines(old(ips), lines)
    {
      var i := 0;
      while i < |lines|
        invariant 0 <= i <= |lines|
        invariant ips == LoadLines(old(ips), lines[..i])
      {
        var fields := SplitComma(lines[i]);
        var id := Atoi(fields[1]).value;
        ips := ips[id := fields[0]];
        EntriesAppend(lines[..i], [lines[i]]);
        assert lines[..i + 1] == lines[..i] + [lines[i]];
        i := i + 1;
      }
      assert lines[..i] == lines;
    }
  }

  /**
   * A line whose second field is not a signed decimal, such as `10.0.0.5, 4`
   * or `10.0.0.5,abc` or `10.0.0.5,`, stores its address under id 0, since
   * the Atoi error is dropped. (A field whose leading digits exceed MaxUint64
   * saturates instead, see AtoiMalformed.)
   */
  lemma MalformedIdIsZero(address: string, field: string, k: nat)
    requires CommaFree(address) && CommaFree(field)
    requires Unsigned(field) == [] ||
             (k < |Unsigned(field)| && !IsDigit(Unsigned(field)[k]) && AllDigits(Unsigned(field)[..k]) &&
              DecimalValue(Unsigned(field)[..k]) <= MaxUint64)
    ensures !CommaFree(address + "," + field)
    ensures LineId(address + "," + field) == 0
    ensures LineAddress(address + "," + field) == address
  {
    assert JoinComma([address, field]) == address + "," + field by {
      assert JoinComma([address, field][1..]) == field;
    }
    LineOfFields([address, field]);
    if Unsigned(field) != [] {
      AtoiMalformed(field, k);
    }
  }

  /**
   * Two well-formed lines with the same id, such as `10.0.0.5,4` and then
   * `10.0.0.9,4`: the id resolves to the address of the second.
   */
  lemma DuplicateIdLaterWins(first: string, second: string, id: int)
    requires CommaFree(first) && CommaFree(second) && MinInt64 <= id <= MaxInt64
    ensures Loadable([first + "," + FormatInt(id), second + "," + FormatInt(id)])
    ensures Resolve(LoadLines(map[], [first + "," + FormatInt(id), second + "," + FormatInt(id)]), id) == Some(second)
  {
    var l0, l1 := first + "," + FormatInt(id), second + "," + FormatInt(id);
    LineOfFormattedId(first, id);
    LineOfFormattedId(second, id);
    var lines := [l0, l1];
    assert Loadable(lines);
    LoadLinesLastWins(map[], lines, 1);
    assert LoadLines(map[], lines)[id] == second;
  }
}
