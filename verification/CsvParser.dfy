/** Splitting one CSV line. A double quote toggles quoting and is dropped; doubled quotes are not an escape. */
module CsvParser {
  import opened Common

  datatype Scan = Scan(fields: seq<string>, current: string, inQuotes: bool)

  function Step(s: Scan, c: char): Scan {
    if c == '"' then s.(inQuotes := !s.inQuotes)
    else if c == ',' && !s.inQuotes then s.(fields := s.fields + [s.current], current := "")
    else s.(current := s.current + [c])
  }

  function ScanFrom(s: Scan, line: string): Scan {
    if line == [] then s else Step(ScanFrom(s, line[..|line|-1]), line[|line|-1])
  }

  function Split(line: string): seq<string> {
    var s := ScanFrom(Scan([], "", false), line);
    s.fields + [s.current]
  }

  /** `splitCSVLine`. */
  method SplitCSVLine(line: string) returns (fields: seq<string>)
    ensures fields == Split(line)
  {
    fields := [];
    var current := "";
    var inQuotes := false;
    for i := 0 to |line|
      invariant Scan(fields, current, inQuotes) == ScanFrom(Scan([], "", false), line[..i])
    {
      var c := line[i];
      assert line[..i + 1][..i] == line[..i];
      if c == '"' {
        inQuotes := !inQuotes;
      } else if c == ',' && !inQuotes {
        fields := fields + [current];
        current := "";
      } else {
        current := current + [c];
      }
    }
    assert line[..|line|] == line;
    fields := fields + [current];
  }

  /** Quoting a field as RFC 4180 has it: inside quotes, each quote doubled. */
  function Doubled(field: string): string {
    if field == [] then [] else
    Doubled(field[..|field|-1]) + if field[|field|-1] == '"' then "\"\"" else [field[|field|-1]]
  }

  function Quote(field: string): string {
    "\"" + Doubled(field) + "\""
  }

  function Join(fields: seq<string>): string
    requires fields != []
  {
    if |fields| == 1 then Quote(fields[0]) else Join(fields[..|fields|-1]) + "," + Quote(fields[|fields|-1])
  }

  /** A field without its quotes. */
  function Stripped(field: string): string {
    if field == [] then [] else
    Stripped(field[..|field|-1]) + if field[|field|-1] == '"' then [] else [field[|field|-1]]
  }

  lemma {:induction false} ScanAppend(s: Scan, a: string, b: string)
    ensures ScanFrom(s, a + b) == ScanFrom(ScanFrom(s, a), b)
  {
    if b == [] {
      assert a + b == a;
    } else {
      assert (a + b)[..|a + b|-1] == a + b[..|b|-1];
      ScanAppend(s, a, b[..|b|-1]);
    }
  }

  lemma ScanOne(s: Scan, c: char)
    ensures ScanFrom(s, [c]) == Step(s, c)
  {
    assert [c][..0] == [];
    assert ScanFrom(s, []) == s;
  }

  /** Inside quotes, a doubled field adds its characters without the quotes, commas included. */
  lemma {:induction false} ScanDoubled(s: Scan, field: string)
    requires s.inQuotes
    ensures ScanFrom(s, Doubled(field)) == s.(current := s.current + Stripped(field))
  {
    if field == [] {
      assert s.current + [] == s.current;
    } else {
      var front, c := field[..|field|-1], field[|field|-1];
      ScanDoubled(s, front);
      var mid := ScanFrom(s, Doubled(front));
      ScanAppend(s, Doubled(front), if c == '"' then "\"\"" else [c]);
      if c == '"' {
        assert "\"\"" == ['"'] + ['"'];
        ScanAppend(mid, ['"'], ['"']);
        ScanOne(mid, '"');
        ScanOne(Step(mid, '"'), '"');
      } else {
        ScanOne(mid, c);
        ConcatAssoc(s.current, Stripped(front), [c]);
      }
    }
  }

  lemma ScanQuote(s: Scan, field: string)
    requires !s.inQuotes
    ensures ScanFrom(s, Quote(field)) == s.(current := s.current + Stripped(field))
  {
    ScanAppend(s, "\"" + Doubled(field), "\"");
    ScanAppend(s, "\"", Doubled(field));
    ScanOne(s, '"');
    var inside := Step(s, '"');
    ScanDoubled(inside, field);
    ScanOne(ScanFrom(inside, Doubled(field)), '"');
  }

  function StrippedAll(fields: seq<string>): seq<string> {
    seq(|fields|, i requires 0 <= i < |fields| => Stripped(fields[i]))
  }

  /** One more quoted field after a comma. */
  lemma ScanNext(start: Scan, line: string, done: seq<string>, current: string, field: string)
    requires ScanFrom(start, line) == Scan(done, current, false)
    ensures ScanFrom(start, line + "," + Quote(field)) == Scan(done + [current], Stripped(field), false)
  {
    ScanAppend(start, line + ",", Quote(field));
    ScanAppend(start, line, ",");
    ScanOne(ScanFrom(start, line), ',');
    ScanQuote(Scan(done + [current], "", false), field);
    assert "" + Stripped(field) == Stripped(field);
  }

  lemma StrippedSnoc(fields: seq<string>, n: nat)
    requires n < |fields|
    ensures StrippedAll(fields[..n + 1]) == StrippedAll(fields[..n]) + [Stripped(fields[n])]
  {
  }

  lemma {:induction false} ScanJoin(fields: seq<string>)
    requires fields != []
    ensures var n := |fields| - 1;
      ScanFrom(Scan([], "", false), Join(fields)) == Scan(StrippedAll(fields[..n]), Stripped(fields[n]), false)
  {
    var n, start := |fields| - 1, Scan([], "", false);
    if n == 0 {
      ScanQuote(start, fields[0]);
      assert "" + Stripped(fields[0]) == Stripped(fields[0]);
    } else {
      var front := fields[..n];
      ScanJoin(front);
      ScanNext(start, Join(front), StrippedAll(front[..n - 1]), Stripped(front[n - 1]), fields[n]);
      StrippedSnoc(front, n - 1);
      assert front[..n] == front;
    }
  }

  /** Quoting, joining and splitting returns every field without its quotes. */
  lemma SplitOfJoin(fields: seq<string>)
    requires fields != []
    ensures Split(Join(fields)) == StrippedAll(fields)
  {
    ScanJoin(fields);
    var n := |fields| - 1;
    assert StrippedAll(fields[..n]) + [Stripped(fields[n])] == StrippedAll(fields);
  }

  lemma {:induction false} StrippedIsSame(field: string)
    ensures Stripped(field) == field <==> '"' !in field
    ensures |Stripped(field)| <= |field| && ('"' in field ==> |Stripped(field)| < |field|)
  {
    if field != [] {
      var front, c := field[..|field|-1], field[|field|-1];
      assert field == front + [c];
      StrippedIsSame(front);
    }
  }

  /** Splitting inverts quoting if and only if no field contains a double quote. */
  lemma SplitInvertsQuotingIff(fields: seq<string>)
    requires fields != []
    ensures Split(Join(fields)) == fields <==> forall f :: f in fields ==> '"' !in f
  {
    SplitOfJoin(fields);
    forall i | 0 <= i < |fields|
      ensures Stripped(fields[i]) == fields[i] <==> '"' !in fields[i]
    {
      StrippedIsSame(fields[i]);
    }
    if Split(Join(fields)) == fields {
      forall f | f in fields
        ensures '"' !in f
      {
        var i :| 0 <= i < |fields| && fields[i] == f;
        assert StrippedAll(fields)[i] == fields[i];
      }
    }
  }

  /** A field that is one double quote comes back empty. */
  lemma QuotesAreLost()
    ensures Split(Join(["\""])) == [""]
  {
    SplitOfJoin(["\""]);
    assert ['"'][..0] == [];
    assert Stripped("\"") == "";
  }

  // ---- Any line ------------------------------------------------------------------------------------

  function QuotesIn(s: string): nat {
    if s == [] then 0 else QuotesIn(s[..|s|-1]) + if s[|s|-1] == '"' then 1 else 0
  }

  /** Every comma of the line stands after an odd number of quotes. */
  predicate AllCommasQuoted(line: string) {
    forall i :: 0 <= i < |line| && line[i] == ',' ==> QuotesIn(line[..i]) % 2 == 1
  }

  lemma {:induction false} QuotingIsParity(s: Scan, line: string)
    requires !s.inQuotes
    ensures ScanFrom(s, line).inQuotes <==> QuotesIn(line) % 2 == 1
  {
    if line != [] {
      QuotingIsParity(s, line[..|line|-1]);
    }
  }

  lemma {:induction false} ScanUnsplit(line: string)
    requires AllCommasQuoted(line)
    ensures ScanFrom(Scan([], "", false), line).fields == [] && ScanFrom(Scan([], "", false), line).current == Stripped(line)
  {
    if line != [] {
      var front := line[..|line|-1];
      forall i | 0 <= i < |front| && front[i] == ',' ensures QuotesIn(front[..i]) % 2 == 1 { assert front[..i] == line[..i]; }
      ScanUnsplit(front);
      QuotingIsParity(Scan([], "", false), front);
      assert Stripped(front) + [] == Stripped(front);
    }
  }

  /** A line whose commas are all quoted is one field: the line without its quotes. */
  lemma SplitOne(line: string)
    requires AllCommasQuoted(line)
    ensures Split(line) == [Stripped(line)]
  {
    ScanUnsplit(line);
  }

  lemma {:induction false} ScanAfter(done: seq<string>, line: string)
    ensures var s, t := ScanFrom(Scan(done, "", false), line), ScanFrom(Scan([], "", false), line);
      s == t.(fields := done + t.fields)
  {
    if line == [] {
      assert done + [] == done;
    } else {
      ScanAfter(done, line[..|line|-1]);
      var t := ScanFrom(Scan([], "", false), line[..|line|-1]);
      ConcatAssoc(done, t.fields, [t.current]);
    }
  }

  /** A comma after an even number of quotes separates: the fields before it and those after it. */
  lemma SplitAtComma(a: string, b: string)
    requires QuotesIn(a) % 2 == 0
    ensures Split(a + "," + b) == Split(a) + Split(b)
  {
    var start := Scan([], "", false);
    var s := ScanFrom(start, a);
    QuotingIsParity(start, a);
    ScanAppend(start, a + ",", b);
    ScanAppend(start, a, ",");
    ScanOne(s, ',');
    ScanAfter(s.fields + [s.current], b);
    var t := ScanFrom(start, b);
    ConcatAssoc(s.fields + [s.current], t.fields, [t.current]);
  }
}
