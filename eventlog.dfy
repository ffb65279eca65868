/**
 * Reading orders.log on the consumer side, shared by the four consumers: each
 * line is searched for the log pattern, lines without a match are skipped,
 * and the groups of every match are converted into a record. A conversion
 * that raises (int() on "12.5") ends the whole read with that error, at the
 * first matched line in file order whose conversion fails.
 */
module EventLog {
  import opened Wrappers
  import opened Text
  import opened Grammar

  /** What reading the log can raise: ValueError from int(), or a missing file. */
  datatype ParseError = ValueError(token: string) | FileMissing

  /**
   * One matched line after conversion. `D` is the direction as the consumer
   * keeps it; the amount stays the matched text (float() of a numeral never raises).
   */
  datatype Record<D> = Record(stamp: int, id: int, asset: string, amount: string, direction: D, duration: int)

  /**
   * int(t) on the numerals the log pattern captures (`\d+\.?\d*`): a string of
   * digits converts, one holding a '.' raises. Signs, surrounding blanks and
   * underscores, which Python's int() also accepts, never reach it.
   */
  function PyInt(t: string): (r: Result<int, ParseError>)
    ensures r.Ok? <==> t != [] && AllDigits(t)
  {
    if t != [] && AllDigits(t) then Ok(DigitsValue(t)) else Err(ValueError(t))
  }

  /** int(float(t)) on a matched numeral: the value of the digits before the '.'. */
  function Truncate(t: string): nat {
    var a := Run(t, Digits);
    assert AllDigits(t[..a]) by {
      forall i | 0 <= i < a ensures IsDigit(t[..a][i]) { assert InClass(Digits, t[i]); }
    }
    DigitsValue(t[..a])
  }

  /** int() reads back str(n), and rejects any numeral holding a '.'. */
  lemma PyIntNumerals(n: nat, t: string)
    ensures PyInt(NatText(n)) == Ok(n)
    ensures '.' in t ==> PyInt(t) == Err(ValueError(t))
  {
    NatTextValue(n);
    if '.' in t {
      var i :| 0 <= i < |t| && t[i] == '.';
      assert !IsDigit(t[i]);
    }
  }

  /** On a captured numeral, int() succeeds iff it holds no '.', and gives the value of its digits. */
  lemma NumeralInt(t: string)
    requires ValidToken(Numeral, t)
    ensures PyInt(t).Ok? <==> '.' !in t
    ensures PyInt(t).Ok? ==> PyInt(t).value == DigitsValue(t)
  {
    if '.' !in t {
      NumeralDigits(t);
    } else {
      PyIntNumerals(0, t);
    }
  }

  /** A fractional part: empty, or a '.' followed by digits. */
  predicate Fraction(tail: string) {
    tail == [] || (tail[0] == '.' && AllDigits(tail[1..]))
  }

  /** int(float(t)) of str(n), with or without a fractional part, is n. */
  lemma TruncateNumerals(n: nat, tail: string)
    requires Fraction(tail)
    ensures Truncate(NatText(n) + tail) == n
  {
    var t := NatText(n);
    NatTextValue(n);
    RunStable(t, tail, Digits);
    assert (t + tail)[..|t|] == t;
  }

  /** What `find` reports for each line that has a match, in file order. */
  function Found(lines: seq<string>, find: string -> Option<Captures>): seq<Captures>
    decreases |lines|
  {
    if lines == [] then []
    else (match find(lines[0]) case Some(c) => [c] case None => []) + Found(lines[1..], find)
  }

  /** re.search with the log pattern, as a function of the line. */
  function Finder(sep: Sep): string -> Option<Captures> {
    l => Search(l, sep)
  }

  /** The captures of the matching lines, in file order. */
  function Matches(lines: seq<string>, sep: Sep): seq<Captures> {
    Found(lines, Finder(sep))
  }

  /** Convert captures in order; the first conversion that fails is the outcome. */
  function ConvertAll<D>(ms: seq<Captures>, conv: Captures -> Result<Record<D>, ParseError>): Result<seq<Record<D>>, ParseError>
    decreases |ms|
  {
    if ms == [] then Ok([])
    else match conv(ms[0])
      case Err(e) => Err(e)
      case Ok(r) =>
        match ConvertAll(ms[1..], conv)
        case Err(e) => Err(e)
        case Ok(rs) => Ok([r] + rs)
  }

  /** The records read from the lines of a log. */
  function Parse<D>(lines: seq<string>, sep: Sep, conv: Captures -> Result<Record<D>, ParseError>): Result<seq<Record<D>>, ParseError> {
    ConvertAll(Matches(lines, sep), conv)
  }

  // ---------------------------------------------------------------------
  // Lemmas

  /** At most one capture per line. */
  lemma {:induction false} FoundBound(lines: seq<string>, find: string -> Option<Captures>)
    ensures |Found(lines, find)| <= |lines|
    decreases |lines|
  {
    if lines != [] { FoundBound(lines[1..], find); }
  }

  lemma MatchesBound(lines: seq<string>, sep: Sep)
    ensures |Matches(lines, sep)| <= |lines|
  {
    FoundBound(lines, Finder(sep));
  }

  lemma FoundCons(a: seq<string>, b: seq<string>, find: string -> Option<Captures>)
    requires a != []
    ensures Found(a, find) == Found([a[0]], find) + Found(a[1..], find)
    ensures Found(a + b, find) == Found([a[0]], find) + Found(a[1..] + b, find)
  {
    assert [a[0]][1..] == [];
    assert (a + b)[0] == a[0];
    assert (a + b)[1..] == a[1..] + b;
  }

  lemma {:induction false} FoundAppend(a: seq<string>, b: seq<string>, find: string -> Option<Captures>)
    ensures Found(a + b, find) == Found(a, find) + Found(b, find)
    decreases |a|
  {
    if a == [] {
      assert a + b == b;
    } else {
      FoundCons(a, b, find);
      FoundAppend(a[1..], b, find);
      Assoc(Found([a[0]], find), Found(a[1..], find), Found(b, find));
    }
  }

  /** The captures of two stretches of a file are those of each, one after the other. */
  lemma MatchesAppend(a: seq<string>, b: seq<string>, sep: Sep)
    ensures Matches(a + b, sep) == Matches(a, sep) + Matches(b, sep)
  {
    FoundAppend(a, b, Finder(sep));
  }

  lemma FoundSingle(l: string, find: string -> Option<Captures>)
    ensures Found([l], find) == match find(l) case Some(c) => [c] case None => []
  {
    assert [l][0] == l && [l][1..] == [];
  }

  lemma MatchesSingle(l: string, sep: Sep)
    ensures Matches([l], sep) == match Search(l, sep) case Some(c) => [c] case None => []
  {
    FoundSingle(l, Finder(sep));
    assert Finder(sep)(l) == Search(l, sep);
  }

  /** A line without a match contributes nothing, wherever it stands. */
  lemma SkippedLine(a: seq<string>, l: string, b: seq<string>, sep: Sep)
    requires Search(l, sep).None?
    ensures Matches(a + [l] + b, sep) == Matches(a + b, sep)
  {
    MatchesAppend(a + [l], b, sep);
    MatchesAppend(a, [l], sep);
    MatchesAppend(a, b, sep);
    MatchesSingle(l, sep);
  }

  /** A line with a match contributes exactly its captures. */
  lemma MatchedLine(a: seq<string>, l: string, sep: Sep)
    requires Search(l, sep).Some?
    ensures Matches(a + [l], sep) == Matches(a, sep) + [Search(l, sep).value]
  {
    MatchesAppend(a, [l], sep);
    MatchesSingle(l, sep);
  }

  /** Converting two runs of captures: the first error of the first run wins, then that of the second. */
  lemma {:induction false} ConvertAllAppend<D>(m1: seq<Captures>, m2: seq<Captures>, conv: Captures -> Result<Record<D>, ParseError>)
    ensures ConvertAll(m1 + m2, conv)
         == match ConvertAll(m1, conv)
            case Err(e) => Err(e)
            case Ok(r1) => (match ConvertAll(m2, conv) case Err(e) => Err(e) case Ok(r2) => Ok(r1 + r2))
    decreases |m1|
  {
    if m1 == [] {
      assert m1 + m2 == m2;
      match ConvertAll(m2, conv)
      case Err(e) =>
      case Ok(r2) => assert [] + r2 == r2;
    } else {
      assert (m1 + m2)[0] == m1[0];
      assert (m1 + m2)[1..] == m1[1..] + m2;
      ConvertAllAppend(m1[1..], m2, conv);
      match conv(m1[0])
      case Err(e) =>
      case Ok(r) =>
        match ConvertAll(m1[1..], conv)
        case Err(e) =>
        case Ok(r1) =>
          match ConvertAll(m2, conv)
          case Err(e) =>
          case Ok(r2) => assert [r] + (r1 + r2) == ([r] + r1) + r2;
    }
  }

  /**
   * The outcome of converting captures: records one for one when every
   * conversion succeeds, otherwise the error of the first that fails.
   */
  lemma {:induction false} ConvertAllMeaning<D>(ms: seq<Captures>, conv: Captures -> Result<Record<D>, ParseError>)
    ensures ConvertAll(ms, conv).Ok? <==> forall k :: 0 <= k < |ms| ==> conv(ms[k]).Ok?
    ensures ConvertAll(ms, conv).Ok? ==>
              |ConvertAll(ms, conv).value| == |ms|
              && forall k :: 0 <= k < |ms| ==> conv(ms[k]) == Ok(ConvertAll(ms, conv).value[k])
    ensures ConvertAll(ms, conv).Err? ==>
              exists k :: 0 <= k < |ms| && conv(ms[k]) == Err(ConvertAll(ms, conv).error)
                          && forall j :: 0 <= j < k ==> conv(ms[j]).Ok?
    decreases |ms|
  {
    if ms != [] {
      ConvertAllMeaning(ms[1..], conv);
      match conv(ms[0])
      case Err(e) =>
        assert conv(ms[0]) == Err(ConvertAll(ms, conv).error);
      case Ok(r) =>
        match ConvertAll(ms[1..], conv)
        case Err(e) =>
          var k :| 0 <= k < |ms[1..]| && conv(ms[1..][k]) == Err(e) && forall j :: 0 <= j < k ==> conv(ms[1..][j]).Ok?;
          assert conv(ms[k + 1]) == Err(e);
          forall j | 0 <= j < k + 1 ensures conv(ms[j]).Ok? {
            if j > 0 { assert ms[j] == ms[1..][j - 1]; }
          }
          assert !conv(ms[1..][k]).Ok?;
        case Ok(rs) =>
          forall k | 0 <= k < |ms| ensures conv(ms[k]) == Ok(([r] + rs)[k]) {
            if k > 0 { assert ms[k] == ms[1..][k - 1]; }
          }
    }
  }

  lemma ConvertSingle<D>(c: Captures, conv: Captures -> Result<Record<D>, ParseError>)
    ensures ConvertAll([c], conv) == match conv(c) case Err(e) => Err(e) case Ok(r) => Ok([r])
  {
    assert [c][0] == c && [c][1..] == [];
    if conv(c).Ok? {
      assert [conv(c).value] + [] == [conv(c).value];
    }
  }

  /** Once a conversion has failed, later lines do not change the outcome. */
  lemma ErrorPersists<D>(m1: seq<Captures>, m2: seq<Captures>, conv: Captures -> Result<Record<D>, ParseError>)
    requires ConvertAll(m1, conv).Err?
    ensures ConvertAll(m1 + m2, conv) == ConvertAll(m1, conv)
  {
    ConvertAllAppend(m1, m2, conv);
  }

  /**
   * A line appended to a log that reads without error adds exactly the record
   * of its match, or nothing when it has none.
   */
  lemma ParseSnoc<D>(lines: seq<string>, l: string, sep: Sep, conv: Captures -> Result<Record<D>, ParseError>)
    requires Parse(lines, sep, conv).Ok?
    requires Search(l, sep).Some? ==> conv(Search(l, sep).value).Ok?
    ensures Parse(lines + [l], sep, conv)
         == Ok(Parse(lines, sep, conv).value
               + match Search(l, sep) case None => [] case Some(c) => [conv(c).value])
  {
    var before := Matches(lines, sep);
    MatchesAppend(lines, [l], sep);
    MatchesSingle(l, sep);
    match Search(l, sep)
    case None =>
      assert Matches(lines + [l], sep) == before + [];
      assert before + [] == before;
      assert Parse(lines, sep, conv).value + [] == Parse(lines, sep, conv).value;
    case Some(c) =>
      assert Matches(lines + [l], sep) == before + [c];
      ConvertAllAppend(before, [c], conv);
      ConvertSingle(c, conv);
  }

  /** The line-by-line loop of the consumers' readers. */
  method ReadRecords<D>(lines: seq<string>, sep: Sep, conv: Captures -> Result<Record<D>, ParseError>)
    returns (r: Result<seq<Record<D>>, ParseError>)
    ensures r == Parse(lines, sep, conv)
  {
    var acc: seq<Record<D>> := [];
    var i := 0;
    while i < |lines|
      invariant 0 <= i <= |lines|
      invariant ConvertAll(Matches(lines[..i], sep), conv) == Ok(acc)
    {
      var line := lines[i];
      var before := Matches(lines[..i], sep);
      assert lines[..i + 1] == lines[..i] + [line];
      MatchesAppend(lines[..i], [line], sep);
      MatchesSingle(line, sep);
      var found := Search(line, sep);
      if found.Some? {
        var c := found.value;
        assert Matches(lines[..i + 1], sep) == before + [c];
        ConvertAllAppend(before, [c], conv);
        ConvertSingle(c, conv);
        var x := conv(c);
        if x.Err? {
          assert ConvertAll(before + [c], conv) == Err(x.error);
          MatchesAppend(lines[..i + 1], lines[i + 1..], sep);
          assert lines[..i + 1] + lines[i + 1..] == lines;
          ErrorPersists(before + [c], Matches(lines[i + 1..], sep), conv);
          return Err(x.error);
        }
        acc := acc + [x.value];
      } else {
        assert Matches(lines[..i + 1], sep) == before + [];
        assert before + [] == before;
      }
      i := i + 1;
    }
    assert lines[..i] == lines;
    r := Ok(acc);
  }
}
