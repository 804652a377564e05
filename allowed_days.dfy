/** The `allowed_days` text of a schedule: the format the schedule schema accepts
    for it, the `split(',')` the engine applies to it, and the table that turns a
    day abbreviation into a weekday number. */
module AllowedDays {
  import opened Common

  /** The keys of the lookup table in `get_days_until`, at their weekday numbers. */
  const DayNames: seq<string> := ["Mon", "Tue", "Wed", "Thu", "Fri", "Sat", "Sun"]

  /** `{'Mon': 0, ..., 'Sun': 6}[name]`; `None` stands for the `KeyError`. */
  function DayIndex(name: string): (r: Option<nat>)
    ensures r.Some? <==> name in DayNames
    ensures r.Some? ==> r.value < 7 && DayNames[r.value] == name
  {
    if name == "Mon" then Some(0)
    else if name == "Tue" then Some(1)
    else if name == "Wed" then Some(2)
    else if name == "Thu" then Some(3)
    else if name == "Fri" then Some(4)
    else if name == "Sat" then Some(5)
    else if name == "Sun" then Some(6)
    else None
  }

  /** Python's `s.split(',')`: never empty; an empty piece wherever two commas meet
      or a comma starts or ends the text. */
  function Split(s: string): (r: seq<string>)
    ensures |r| >= 1
  {
    if s == [] then [""]
    else if s[0] == ',' then [""] + Split(s[1..])
    else
      var rest := Split(s[1..]);
      [[s[0]] + rest[0]] + rest[1..]
  }

  /** The inverse of `Split`: the pieces joined with single commas. */
  function Join(pieces: seq<string>): string
  {
    if |pieces| <= 1 then (if pieces == [] then "" else pieces[0])
    else pieces[0] + "," + Join(pieces[1..])
  }

  lemma {:induction false} SplitNoComma(d: string)
    requires ',' !in d
    ensures Split(d) == [d]
  {
    if d != [] {
      SplitNoComma(d[1..]);
      assert [d[0]] + d[1..] == d;
    }
  }

  lemma {:induction false} SplitAfterPiece(d: string, rest: string)
    requires ',' !in d
    ensures Split(d + "," + rest) == [d] + Split(rest)
  {
    if d == [] {
      assert d + "," + rest == [','] + rest;
      assert ([','] + rest)[1..] == rest;
    } else {
      assert (d + "," + rest)[1..] == d[1..] + "," + rest;
      SplitAfterPiece(d[1..], rest);
      assert [d[0]] + d[1..] == d;
    }
  }

  /** Splitting joined pieces that hold no comma gives the pieces back. */
  lemma {:induction false} SplitJoin(pieces: seq<string>)
    requires |pieces| >= 1
    requires forall i :: 0 <= i < |pieces| ==> ',' !in pieces[i]
    ensures Split(Join(pieces)) == pieces
  {
    if |pieces| == 1 {
      SplitNoComma(pieces[0]);
    } else {
      SplitJoin(pieces[1..]);
      SplitAfterPiece(pieces[0], Join(pieces[1..]));
      assert [pieces[0]] + pieces[1..] == pieces;
    }
  }

  /** The `allowed_days` format as a full match of
      `(Mon|Tue|Wed|Thu|Fri|Sat|Sun)(,(Mon|Tue|Wed|Thu|Fri|Sat|Sun))*`:
      one or more abbreviations, single commas, no spaces, no trailing comma. */
  predicate AllowedDaysFormat(s: string)
    decreases |s|
  {
    |s| >= 3 && s[..3] in DayNames &&
    (|s| == 3 || (s[3] == ',' && AllowedDaysFormat(s[4..])))
  }

  /** The regular expression as written, applied with `re.match`: there `$` also
      matches just before a final newline, so one trailing '\n' is accepted. */
  predicate AllowedDaysRegexAsWritten(s: string)
  {
    AllowedDaysFormat(s) || (|s| > 0 && s[|s| - 1] == '\n' && AllowedDaysFormat(s[..|s| - 1]))
  }

  /** Appending a character other than a comma extends the last piece. */
  lemma {:induction false} SplitSnoc(t: string, c: char)
    requires c != ','
    ensures Split(t + [c]) == AppendToLast(Split(t), c)
  {
    if t == [] {
      assert t + [c] == [c];
      assert [c][1..] == [];
      assert Split([c]) == [[c] + ""] + [""][1..];
      assert [c] + "" == [c];
      assert Split([c]) == [[c]];
      assert AppendToLast([""], c) == [[c]];
    } else {
      assert (t + [c])[0] == t[0];
      assert (t + [c])[1..] == t[1..] + [c];
      SplitSnoc(t[1..], c);
      if t[0] != ',' {
        PrependKeepsLast(t[0], Split(t[1..]), c);
      }
    }
  }

  /** The pieces `p` with `c` added to the last one. */
  function AppendToLast(p: seq<string>, c: char): (r: seq<string>)
    requires |p| >= 1
    ensures |r| == |p| && r[|r| - 1] == p[|p| - 1] + [c]
    ensures forall i :: 0 <= i < |p| - 1 ==> r[i] == p[i]
  {
    p[..|p| - 1] + [p[|p| - 1] + [c]]
  }

  /** Adding to the last piece commutes with putting a character in front of the
      first piece. */
  lemma PrependKeepsLast(a: char, q: seq<string>, c: char)
    requires |q| >= 1
    ensures [[a] + AppendToLast(q, c)[0]] + AppendToLast(q, c)[1..]
         == AppendToLast([[a] + q[0]] + q[1..], c)
  {
    var l := [[a] + AppendToLast(q, c)[0]] + AppendToLast(q, c)[1..];
    var r := AppendToLast([[a] + q[0]] + q[1..], c);
    if |q| == 1 {
      assert [a] + (q[0] + [c]) == ([a] + q[0]) + [c];
    }
    assert |l| == |r|;
    forall i | 0 <= i < |l| ensures l[i] == r[i] {
      if i == 0 && |q| == 1 {
        assert [a] + (q[0] + [c]) == ([a] + q[0]) + [c];
      }
    }
  }

  /** Beyond the format, the expression as written lets through exactly a
      well-formed text followed by one newline: the engine's split then gives
      weekday names followed by a last piece that ends in the newline and is
      no weekday name. */
  lemma AsWrittenBeyondFormat(s: string)
    requires AllowedDaysRegexAsWritten(s) && !AllowedDaysFormat(s)
    ensures |s| >= 4 && s[|s| - 1] == '\n' && AllowedDaysFormat(s[..|s| - 1])
    ensures var p := Split(s);
            (forall i :: 0 <= i < |p| - 1 ==> p[i] in DayNames) && p[|p| - 1] !in DayNames
  {
    var t := s[..|s| - 1];
    assert s == t + ['\n'];
    FormatSplitsIntoDayNames(t);
    SplitSnoc(t, '\n');
    var q := Split(t);
    var p := Split(s);
    assert p[|p| - 1] == q[|q| - 1] + ['\n'];
    assert q[|q| - 1] in DayNames;
    forall i | 0 <= i < |p| - 1 ensures p[i] in DayNames {
      assert p[i] == q[i];
    }
  }

  /** The engine's reading of a text the expression as written accepts: every
      piece but the last is a weekday name, and the last one is too exactly
      when the text also meets the full-match format. */
  lemma AsWrittenPieces(s: string)
    requires AllowedDaysRegexAsWritten(s)
    ensures var p := Split(s);
            (forall i :: 0 <= i < |p| - 1 ==> p[i] in DayNames)
            && (p[|p| - 1] in DayNames <==> AllowedDaysFormat(s))
  {
    if AllowedDaysFormat(s) {
      FormatSplitsIntoDayNames(s);
      var p := Split(s);
      assert p[|p| - 1] in p;
      forall i | 0 <= i < |p| - 1 ensures p[i] in DayNames {
        assert p[i] in p;
      }
    } else {
      AsWrittenBeyondFormat(s);
    }
  }

  /** A well-formed `allowed_days` is the join of the day names it splits into. */
  lemma {:induction false} FormatSplitsIntoDayNames(s: string)
    requires AllowedDaysFormat(s)
    ensures forall p :: p in Split(s) ==> p in DayNames
    ensures Join(Split(s)) == s
    decreases |s|
  {
    var d := s[..3];
    assert ',' !in d by {
      assert d in DayNames;
    }
    if |s| == 3 {
      assert s == d;
      SplitNoComma(d);
    } else {
      FormatSplitsIntoDayNames(s[4..]);
      assert s == d + "," + s[4..];
      SplitAfterPiece(d, s[4..]);
      assert Split(s) == [d] + Split(s[4..]);
    }
  }

  /** Conversely, any non-empty list of day names joins to a well-formed text. */
  lemma {:induction false} JoinedDayNamesMatch(days: seq<string>)
    requires |days| >= 1
    requires forall i :: 0 <= i < |days| ==> days[i] in DayNames
    ensures AllowedDaysFormat(Join(days))
    ensures Split(Join(days)) == days
  {
    forall i | 0 <= i < |days| ensures ',' !in days[i] {
      assert days[i] in DayNames;
    }
    SplitJoin(days);
    if |days| > 1 {
      JoinedDayNamesMatch(days[1..]);
      var s := Join(days);
      assert s == days[0] + "," + Join(days[1..]);
      assert |days[0]| == 3 by { assert days[0] in DayNames; }
      assert s[..3] == days[0];
      assert s[4..] == Join(days[1..]);
    } else {
      assert Join(days) == days[0];
      assert days[0][..3] == days[0] by { assert days[0] in DayNames; }
    }
  }

  /** Duplicates pass the format: "Mon,Mon" is accepted and splits into two equal days. */
  lemma DuplicateDaysAccepted()
    ensures AllowedDaysFormat("Mon,Mon")
    ensures Split("Mon,Mon") == ["Mon", "Mon"] && !Distinct(Split("Mon,Mon"))
  {
    JoinedDayNamesMatch(["Mon", "Mon"]);
    assert Join(["Mon", "Mon"]) == "Mon,Mon";
  }

  /** Full day names are refused: "Monday,Wednesday" does not match. */
  lemma FullNamesRejected()
    ensures !AllowedDaysFormat("Monday,Wednesday")
    ensures !AllowedDaysRegexAsWritten("Monday,Wednesday")
  {
    assert "Monday,Wednesday"[3] == 'd';
    assert "Monday,Wednesday"[..15][3] == 'd';
  }

  /** The regular expression as written lets "Mon\n" through, and the engine's
      split then yields "Mon\n", which the weekday table does not hold. */
  lemma TrailingNewlineAccepted()
    ensures AllowedDaysRegexAsWritten("Mon\n")
    ensures !AllowedDaysFormat("Mon\n")
    ensures Split("Mon\n") == ["Mon\n"] && DayIndex("Mon\n").None?
  {
    assert "Mon\n"[..3] == "Mon";
    assert "Mon\n"[..|"Mon\n"| - 1] == "Mon";
    assert "Mon"[..3] == "Mon";
    assert AllowedDaysFormat("Mon");
    SplitNoComma("Mon\n");
  }
}
