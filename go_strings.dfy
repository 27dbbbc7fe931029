/**
 * Go's `strings.Split(s, ",")` as used on every line of ip.cfg: the line is
 * cut at every comma, so a line with n commas gives n + 1 fields, and a line
 * without a comma (the empty line included) gives the one field `[s]`.
 */
module GoStrings {

  predicate CommaFree(s: string) {
    ',' !in s
  }

  predicate AllCommaFree(fields: seq<string>) {
    forall i :: 0 <= i < |fields| ==> CommaFree(fields[i])
  }

  /** The fields written back with one comma between neighbours. */
  function JoinComma(fields: seq<string>): string
    requires |fields| >= 1
    decreases |fields|
  {
    if |fields| == 1 then fields[0] else fields[0] + "," + JoinComma(fields[1..])
  }

  /**
   * `strings.Split(s, ",")`. The fields hold no comma, and there is more than
   * one field exactly when `s` has a comma; JoinSplitComma shows that joining
   * them gives `s` back.
   */
  function SplitComma(s: string): (fields: seq<string>)
    ensures |fields| >= 1
    ensures AllCommaFree(fields)
    ensures |fields| == 1 <==> CommaFree(s)
    decreases |s|
  {
    if s == [] then [""]
    else
      var rest := SplitComma(s[1..]);
      if s[0] == ',' then
        [""] + rest
      else
        assert s == [s[0]] + s[1..];
        [[s[0]] + rest[0]] + rest[1..]
  }

  /** Joining a field in front of at least one more puts a comma between them. */
  lemma JoinCommaCons(x: string, rest: seq<string>)
    requires |rest| >= 1
    ensures JoinComma([x] + rest) == x + "," + JoinComma(rest)
  {
    assert ([x] + rest)[1..] == rest;
  }

  /** Joining the fields of a split gives the string back. */
  lemma {:induction false} JoinSplitComma(s: string)
    ensures JoinComma(SplitComma(s)) == s
    decreases |s|
  {
    if s != [] {
      JoinSplitComma(s[1..]);
      if s[0] == ',' {
        JoinSplitCommaAtComma(s);
      } else {
        JoinSplitCommaAtOther(s);
      }
    }
  }

  /** The step of JoinSplitComma for a string that starts with a comma. */
  lemma JoinSplitCommaAtComma(s: string)
    requires s != [] && s[0] == ','
    requires JoinComma(SplitComma(s[1..])) == s[1..]
    ensures JoinComma(SplitComma(s)) == s
  {
    var rest := SplitComma(s[1..]);
    assert SplitComma(s) == [""] + rest;
    JoinCommaCons("", rest);
    assert s == "," + s[1..];
  }

  /** The step of JoinSplitComma for a string that starts with another character. */
  lemma JoinSplitCommaAtOther(s: string)
    requires s != [] && s[0] != ','
    requires JoinComma(SplitComma(s[1..])) == s[1..]
    ensures JoinComma(SplitComma(s)) == s
  {
    SplitCommaCons(s);
    JoinCommaExtendFirst(s[0], SplitComma(s[1..]));
    assert s == [s[0]] + s[1..];
  }

  /** Putting a character in front of the first field puts it in front of the joined string. */
  lemma JoinCommaExtendFirst(c: char, fields: seq<string>)
    requires |fields| >= 1
    ensures JoinComma([[c] + fields[0]] + fields[1..]) == [c] + JoinComma(fields)
  {
    var first := [c] + fields[0];
    var extended := [first] + fields[1..];
    assert |extended| == |fields| && extended[0] == first && extended[1..] == fields[1..];
    if |fields| > 1 {
      ConsBeforeComma(c, fields[0], JoinComma(fields[1..]));
    }
  }

  /** Associativity of the concatenations JoinCommaExtendFirst needs. */
  lemma ConsBeforeComma(c: char, a: string, j: string)
    ensures [c] + a + "," + j == [c] + (a + "," + j)
  {
  }

  /** A string that starts with a non-comma puts that character in front of the first field of the rest. */
  lemma SplitCommaCons(s: string)
    requires s != [] && s[0] != ','
    ensures SplitComma(s) == [[s[0]] + SplitComma(s[1..])[0]] + SplitComma(s[1..])[1..]
  {
  }

  /** Splitting a comma-free prefix `a` glued to `t` only extends the first field of `t`. */
  lemma {:induction false} SplitCommaFreePrefix(a: string, t: string)
    requires CommaFree(a)
    ensures SplitComma(a + t) == [a + SplitComma(t)[0]] + SplitComma(t)[1..]
    decreases |a|
  {
    var st := SplitComma(t);
    if a == [] {
      assert a + t == t;
      assert a + st[0] == st[0];
      assert st == [st[0]] + st[1..];
    } else {
      var s := a + t;
      assert s[1..] == a[1..] + t;
      SplitCommaCons(s);
      SplitCommaFreePrefix(a[1..], t);
      assert [a[0]] + (a[1..] + st[0]) == a + st[0];
    }
  }

  /** Splitting undoes joining: comma-free fields come back exactly. */
  lemma {:induction false} SplitJoinComma(fields: seq<string>)
    requires |fields| >= 1 && AllCommaFree(fields)
    ensures SplitComma(JoinComma(fields)) == fields
    decreases |fields|
  {
    var a := fields[0];
    if |fields| == 1 {
      SplitCommaFreePrefix(a, "");
      assert a + "" == a;
      assert SplitComma("") == [""];
    } else {
      var u := JoinComma(fields[1..]);
      SplitJoinComma(fields[1..]);
      assert JoinComma(fields) == a + ("," + u);
      SplitCommaFreePrefix(a, "," + u);
      var su := SplitComma("," + u);
      assert ("," + u)[0] == ',' && ("," + u)[1..] == u;
      assert su == [""] + fields[1..];
      assert su[0] == "" && su[1..] == fields[1..];
      assert a + "" == a;
      assert fields == [a] + fields[1..];
    }
  }
}
