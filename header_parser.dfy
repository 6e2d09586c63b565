/** The header reader of the table generator (parse_header_file and its inner
    parse_group_1040, parse_group_1041 and parse_group_1050 in
    jpl_ephemeris_data/jpl_ephemeris_parser.py). A line of the header file is modelled
    by its whitespace-separated tokens; a blank line has none. */
module HeaderParser {
  import opened Errors
  import opened TextLines

  /** p occurs in s as a contiguous substring. */
  predicate HasInfix(s: string, p: string)
    decreases |s|
  {
    |p| <= |s| && (s[..|p|] == p || HasInfix(s[1..], p))
  }

  /** "GROUP" in line: the word holds no whitespace, so it occurs in the raw line
      exactly when it occurs inside one of its tokens. */
  predicate IsGroupLine(line: Line)
  {
    exists tok :: tok in line && HasInfix(tok, "GROUP")
  }

  /** The lines collected for the three groups the generator reads, and the group the
      last GROUP line named. */
  datatype Groups = Groups(current: Option<Token>, g1040: seq<Line>, g1041: seq<Line>, g1050: seq<Line>)

  const NoGroups := Groups(None, [], [], [])

  /** One turn of the routing loop: a GROUP line selects the group named by its second
      token (a GROUP line without one raises); before the first GROUP line a line is
      dropped; otherwise the line is kept when the current group is 1040, 1041 or
      1050. */
  function RouteLine(g: Groups, line: Line): Result<Groups>
  {
    if IsGroupLine(line) then
      if |line| < 2 then Err(MalformedGroupLine) else Ok(g.(current := Some(line[1])))
    else if g.current.None? then Ok(g)
    else if g.current.value == "1040" then Ok(g.(g1040 := g.g1040 + [line]))
    else if g.current.value == "1041" then Ok(g.(g1041 := g.g1041 + [line]))
    else if g.current.value == "1050" then Ok(g.(g1050 := g.g1050 + [line]))
    else Ok(g)
  }

  /** The routing loop over a prefix of the file's lines. */
  function Route(lines: seq<Line>): Result<Groups>
  {
    if |lines| == 0 then Ok(NoGroups)
    else
      var g :- Route(lines[..|lines| - 1]);
      RouteLine(g, lines[|lines| - 1])
  }

  /** The routing loop of parse_header_file. */
  method RouteGroups(lines: seq<Line>) returns (r: Result<Groups>)
    ensures r == Route(lines)
  {
    var g := NoGroups;
    var i := 0;
    while i < |lines|
      invariant 0 <= i <= |lines|
      invariant Route(lines[..i]) == Ok(g)
    {
      assert lines[..i + 1][..i] == lines[..i];
      var next := RouteLine(g, lines[i]);
      if next.Err? {
        assert Route(lines[..i + 1]).Err?;
        PrefixFailurePersists(lines, i + 1);
        return next;
      }
      g := next.value;
      i := i + 1;
    }
    assert lines[..i] == lines;
    r := Ok(g);
  }

  /** Once a prefix fails, the whole routing fails with the same error. */
  lemma {:induction false} PrefixFailurePersists(lines: seq<Line>, i: nat)
    requires i <= |lines| && Route(lines[..i]).Err?
    ensures Route(lines) == Route(lines[..i])
    decreases |lines| - i
  {
    if i == |lines| {
      assert lines[..i] == lines;
    } else {
      assert lines[..i + 1][..i] == lines[..i];
      PrefixFailurePersists(lines, i + 1);
    }
  }

  // ---------------------------------------------------------------------------
  // An independent description of the routing

  /** The group named by the last GROUP line of a prefix, if any. */
  function LastGroup(lines: seq<Line>): Option<Token>
  {
    if |lines| == 0 then None
    else if IsGroupLine(lines[|lines| - 1]) && |lines[|lines| - 1]| >= 2 then Some(lines[|lines| - 1][1])
    else LastGroup(lines[..|lines| - 1])
  }

  /** The non-GROUP lines whose last preceding GROUP line names the group. */
  function LinesOfGroup(lines: seq<Line>, name: Token): seq<Line>
  {
    if |lines| == 0 then []
    else
      var init := lines[..|lines| - 1];
      var last := lines[|lines| - 1];
      LinesOfGroup(init, name) + (if !IsGroupLine(last) && LastGroup(init) == Some(name) then [last] else [])
  }

  /** Every GROUP line of the file carries a group name. */
  predicate GroupLinesNamed(lines: seq<Line>)
  {
    forall i :: 0 <= i < |lines| && IsGroupLine(lines[i]) ==> |lines[i]| >= 2
  }

  /** The routing fails exactly when some GROUP line lacks a name; otherwise it keeps
      the current group equal to the last named one, and each of the three groups holds
      exactly the non-GROUP lines that follow a GROUP line naming it, in file order. Lines
      before the first GROUP line, GROUP lines themselves and lines of other groups are
      thus never stored. */
  lemma {:induction false} RouteCollectsGroups(lines: seq<Line>)
    ensures Route(lines).Ok? <==> GroupLinesNamed(lines)
    ensures Route(lines).Ok? ==>
              Route(lines).value.current == LastGroup(lines)
              && Route(lines).value.g1040 == LinesOfGroup(lines, "1040")
              && Route(lines).value.g1041 == LinesOfGroup(lines, "1041")
              && Route(lines).value.g1050 == LinesOfGroup(lines, "1050")
  {
    if |lines| > 0 {
      var init := lines[..|lines| - 1];
      RouteCollectsGroups(init);
      GroupLinesNamedStep(lines);
    }
  }

  /** Every GROUP line is named exactly when those of the prefix are and the last line,
      if a GROUP line, is. */
  lemma GroupLinesNamedStep(lines: seq<Line>)
    requires |lines| > 0
    ensures var init := lines[..|lines| - 1];
            var last := lines[|lines| - 1];
            GroupLinesNamed(lines) <==> GroupLinesNamed(init) && (IsGroupLine(last) ==> |last| >= 2)
  {
    var init := lines[..|lines| - 1];
    var last := lines[|lines| - 1];
    if GroupLinesNamed(init) && (IsGroupLine(last) ==> |last| >= 2) {
      forall i | 0 <= i < |lines| && IsGroupLine(lines[i])
        ensures |lines[i]| >= 2
      {
        if i < |lines| - 1 {
          assert lines[i] == init[i];
        }
      }
    }
    if GroupLinesNamed(lines) {
      forall i | 0 <= i < |init| && IsGroupLine(init[i])
        ensures |init[i]| >= 2
      {
        assert init[i] == lines[i];
      }
    }
  }

  /** A group line that is not among the three read groups switches storing off. */
  lemma OtherGroupDropsLines(g: Groups, line: Line)
    requires g.current.Some? && g.current.value !in {"1040", "1041", "1050"}
    requires !IsGroupLine(line)
    ensures RouteLine(g, line) == Ok(g)
  {
  }

  // ---------------------------------------------------------------------------
  // The three group parsers

  /** Python's lines[2:]. */
  function DropTwo(lines: seq<Line>): seq<Line>
  {
    if |lines| <= 2 then [] else lines[2..]
  }

  /** The tokenising loop shared by parse_group_1040 and parse_group_1041: drop the
      first two lines, skip blank lines, and extend the token list with the rest. */
  method SplitBlock(lines: seq<Line>) returns (tokens: seq<Token>)
    ensures tokens == Concat(DropTwo(lines))
  {
    var rest := DropTwo(lines);
    tokens := [];
    var i := 0;
    while i < |rest|
      invariant 0 <= i <= |rest|
      invariant tokens == Concat(rest[..i])
    {
      assert rest[..i + 1][..i] == rest[..i];
      if |rest[i]| == 0 {
        assert Concat(rest[..i + 1]) == Concat(rest[..i]) + [];
      } else {
        tokens := tokens + rest[i];
      }
      i := i + 1;
    }
    assert rest[..i] == rest;
  }

  /** The index search of parse_group_1040: the position of the first "EMRAT" token. */
  method FindEmrat(tokens: seq<Token>) returns (r: Option<nat>)
    ensures r.None? <==> "EMRAT" !in tokens
    ensures r.Some? ==> r.value < |tokens| && tokens[r.value] == "EMRAT"
                        && forall j :: 0 <= j < r.value ==> tokens[j] != "EMRAT"
  {
    var i := 0;
    while i < |tokens|
      invariant 0 <= i <= |tokens|
      invariant forall j :: 0 <= j < i ==> tokens[j] != "EMRAT"
    {
      if tokens[i] == "EMRAT" {
        return Some(i);
      }
      i := i + 1;
    }
    return None;
  }

  /** parse_group_1040 as a function: the first "EMRAT" position, or None. */
  function EmratIndex(tokens: seq<Token>): Option<nat>
    decreases |tokens|
  {
    if |tokens| == 0 then None
    else if tokens[0] == "EMRAT" then Some(0)
    else
      match EmratIndex(tokens[1..])
      case None => None
      case Some(i) => Some(i + 1)
  }

  /** The search loop and the recursive definition agree: both are the first
      occurrence. */
  lemma {:induction false} EmratIndexIsFirst(tokens: seq<Token>)
    ensures EmratIndex(tokens).None? <==> "EMRAT" !in tokens
    ensures EmratIndex(tokens).Some? ==>
              EmratIndex(tokens).value < |tokens| && tokens[EmratIndex(tokens).value] == "EMRAT"
              && forall j :: 0 <= j < EmratIndex(tokens).value ==> tokens[j] != "EMRAT"
    decreases |tokens|
  {
    if |tokens| > 0 && tokens[0] != "EMRAT" {
      EmratIndexIsFirst(tokens[1..]);
      assert tokens == [tokens[0]] + tokens[1..];
      if EmratIndex(tokens[1..]).Some? {
        var i := EmratIndex(tokens[1..]).value;
        forall j | 0 <= j < i + 1
          ensures tokens[j] != "EMRAT"
        {
          if j > 0 {
            assert tokens[j] == tokens[1..][j - 1];
          }
        }
      }
    }
  }

  /** parse_group_1041: the token at the EMRAT index, after the same two-line drop. The
      token is the ratio's text; turning it into a float is not modelled. */
  function EmratValue(tokens: seq<Token>, index: nat): (r: Result<Token>)
    ensures r.Ok? <==> index < |tokens|
    ensures r.Ok? ==> r.value == tokens[index]
  {
    if index < |tokens| then Ok(tokens[index]) else Err(EmratValueMissing)
  }

  /** parse_group_1050: the non-blank lines of the group, in order. Each is a row of the
      header table; turning its tokens into integers is not modelled. */
  function NonBlank(lines: seq<Line>): seq<Line>
  {
    if |lines| == 0 then []
    else NonBlank(lines[..|lines| - 1]) + (if |lines[|lines| - 1]| == 0 then [] else [lines[|lines| - 1]])
  }

  /** No row is empty, and the rows hold all the group's tokens in order. */
  lemma {:induction false} NonBlankKeepsTokens(lines: seq<Line>)
    ensures forall row :: row in NonBlank(lines) ==> |row| > 0
    ensures Concat(NonBlank(lines)) == Concat(lines)
  {
    if |lines| > 0 {
      var init := lines[..|lines| - 1];
      var last := lines[|lines| - 1];
      NonBlankKeepsTokens(init);
      ConcatAppend(NonBlank(init), if |last| == 0 then [] else [last]);
      ConcatSingle(last);
    }
  }

  /** Splitting the group's lines anywhere splits its rows there: the rows keep the
      order of the lines. */
  lemma {:induction false} NonBlankAppend(a: seq<Line>, b: seq<Line>)
    ensures NonBlank(a + b) == NonBlank(a) + NonBlank(b)
    decreases |b|
  {
    if |b| == 0 {
      assert a + b == a;
    } else {
      var init := b[..|b| - 1];
      var last := b[|b| - 1];
      assert (a + b)[..|a + b| - 1] == a + init;
      assert (a + b)[|a + b| - 1] == last;
      NonBlankAppend(a, init);
      var row: seq<Line> := if |last| == 0 then [] else [last];
      assert NonBlank(a + b) == NonBlank(a + init) + row;
      assert NonBlank(b) == NonBlank(init) + row;
      assert (NonBlank(a) + NonBlank(init)) + row == NonBlank(a) + (NonBlank(init) + row);
    }
  }

  /** One line is one row, unless it is blank. */
  lemma NonBlankSingle(line: Line)
    ensures NonBlank([line]) == if |line| == 0 then [] else [line]
  {
    assert [line][..0] == [];
  }

  /** The loop of parse_group_1050: skip the blank lines and append each other line as
      one row of the header table. */
  method ParseGroup1050(lines: seq<Line>) returns (rows: seq<Line>)
    ensures rows == NonBlank(lines)
  {
    rows := [];
    var i := 0;
    while i < |lines|
      invariant 0 <= i <= |lines|
      invariant rows == NonBlank(lines[..i])
    {
      assert lines[..i + 1][..i] == lines[..i];
      if |lines[i]| > 0 {
        rows := rows + [lines[i]];
      }
      i := i + 1;
    }
    assert lines[..i] == lines;
  }

  /** What parse_header_file returns: the EMRAT token and the rows of group 1050. */
  datatype Header = Header(emrat: Token, table: seq<Line>)

  function ParseHeader(lines: seq<Line>): Result<Header>
  {
    var groups :- Route(lines);
    var index := EmratIndex(Concat(DropTwo(groups.g1040)));
    if index.None? then Err(EmratNotFound)
    else
      var emrat :- EmratValue(Concat(DropTwo(groups.g1041)), index.value);
      Ok(Header(emrat, NonBlank(groups.g1050)))
  }

  /** parse_header_file on the lines of the header file. */
  method ParseHeaderFile(lines: seq<Line>) returns (r: Result<Header>)
    ensures r == ParseHeader(lines)
  {
    var groups :- RouteGroups(lines);
    var tokens1040 := SplitBlock(groups.g1040);
    var index := FindEmrat(tokens1040);
    EmratIndexIsFirst(tokens1040);
    FirstOccurrenceUnique(tokens1040, index, EmratIndex(tokens1040));
    if index.None? {
      return Err(EmratNotFound);
    }
    var tokens1041 := SplitBlock(groups.g1041);
    var emrat :- EmratValue(tokens1041, index.value);
    var table := ParseGroup1050(groups.g1050);
    r := Ok(Header(emrat, table));
  }

  /** Two answers that both satisfy "first occurrence of EMRAT" are equal. */
  lemma FirstOccurrenceUnique(tokens: seq<Token>, a: Option<nat>, b: Option<nat>)
    requires a.None? <==> "EMRAT" !in tokens
    requires a.Some? ==> a.value < |tokens| && tokens[a.value] == "EMRAT"
                         && forall j :: 0 <= j < a.value ==> tokens[j] != "EMRAT"
    requires b.None? <==> "EMRAT" !in tokens
    requires b.Some? ==> b.value < |tokens| && tokens[b.value] == "EMRAT"
                         && forall j :: 0 <= j < b.value ==> tokens[j] != "EMRAT"
    ensures a == b
  {
  }

  /** A header without an EMRAT name in group 1040 is rejected. */
  lemma MissingEmratRejected(lines: seq<Line>)
    requires Route(lines).Ok?
    requires "EMRAT" !in Concat(DropTwo(Route(lines).value.g1040))
    ensures ParseHeader(lines) == Err(EmratNotFound)
  {
    EmratIndexIsFirst(Concat(DropTwo(Route(lines).value.g1040)));
  }

  /** On success group 1040 names EMRAT, and the ratio is the 1041 token at the position
      of its first EMRAT token, both counted after the first two lines of the group. */
  lemma EmratAtSamePosition(lines: seq<Line>)
    requires ParseHeader(lines).Ok?
    ensures Route(lines).Ok?
    ensures "EMRAT" in Concat(DropTwo(Route(lines).value.g1040))
    ensures forall i :: 0 <= i < |Concat(DropTwo(Route(lines).value.g1040))|
                        && Concat(DropTwo(Route(lines).value.g1040))[i] == "EMRAT"
                        && (forall j :: 0 <= j < i ==> Concat(DropTwo(Route(lines).value.g1040))[j] != "EMRAT")
                        ==> i < |Concat(DropTwo(Route(lines).value.g1041))|
                            && ParseHeader(lines).value.emrat == Concat(DropTwo(Route(lines).value.g1041))[i]
  {
    var g := Route(lines).value;
    var names := Concat(DropTwo(g.g1040));
    EmratIndexIsFirst(names);
    forall i | 0 <= i < |names| && names[i] == "EMRAT" && (forall j :: 0 <= j < i ==> names[j] != "EMRAT")
      ensures i == EmratIndex(names).value
    {
      var k := EmratIndex(names).value;
      assert !(i < k) && !(k < i);
    }
  }
}
