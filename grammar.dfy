/**
 * The event-log line grammar shared by the producers and the consumers:
 *
 *   ...Stamp: <num> ID: <num> Asset: <asset> Amount: <num> Direction: <word> Duration: <num>...
 *
 * with <num> = \d+\.?\d*, <asset> = [\w-]+, <word> = \w+, searched anywhere in a
 * line (re.search). Consumers differ only in what separates the fields: exactly
 * one space, or \s+. The matcher is written by hand: at a fixed start position
 * each token is the longest run of its class, because the character that ends a
 * token (whitespace) can never belong to it, so the regex has no other choice.
 */
module Grammar {
  import opened Wrappers
  import opened Text

  datatype CharClass = Digits | WordChars | AssetChars | Spaces

  predicate InClass(k: CharClass, c: char) {
    match k
    case Digits => IsDigit(c)
    case WordChars => IsWordChar(c)
    case AssetChars => IsAssetChar(c)
    case Spaces => IsSpace(c)
  }

  /** The longest prefix of `s` drawn from class `k`: a greedy [k]*. */
  function Run(s: string, k: CharClass): (n: nat)
    ensures n <= |s|
    ensures forall i :: 0 <= i < n ==> InClass(k, s[i])
    ensures n < |s| ==> !InClass(k, s[n])
    decreases |s|
  {
    if s != [] && InClass(k, s[0]) then 1 + Run(s[1..], k) else 0
  }

  /** What separates two fields: one space (cpo.py, cdr.py, ciq.py) or \s+ (cqu.py). */
  datatype Sep = OneSpace | Whitespace

  /** Length of the separator at the head of `s`; 0 when there is none. */
  function GapLen(s: string, sep: Sep): nat {
    match sep
    case OneSpace => if s != [] && s[0] == ' ' then 1 else 0
    case Whitespace => Run(s, Spaces)
  }

  datatype Kind = Numeral | AssetName | Word

  /** Length of the greedy \d+\.?\d* at the head of `s`; 0 when there is none. */
  function NumeralLen(s: string): (n: nat)
    ensures n <= |s|
  {
    var a := Run(s, Digits);
    if a == 0 then 0
    else if a < |s| && s[a] == '.' then a + 1 + Run(s[a + 1..], Digits)
    else a
  }

  function TokenLen(k: Kind, s: string): (n: nat)
    ensures n <= |s|
  {
    match k
    case Numeral => NumeralLen(s)
    case AssetName => Run(s, AssetChars)
    case Word => Run(s, WordChars)
  }

  /** A name such as "ID: " and the kind of token that follows it. */
  datatype Field = Field(name: string, kind: Kind)

  const LogFields: seq<Field> := [
    Field("Stamp: ", Numeral), Field("ID: ", Numeral), Field("Asset: ", AssetName),
    Field("Amount: ", Numeral), Field("Direction: ", Word), Field("Duration: ", Numeral)
  ]

  /** The six groups of a match, as text. */
  datatype Captures = Captures(stamp: string, id: string, asset: string, amount: string,
                               direction: string, duration: string)

  function Tokens(c: Captures): seq<string> {
    [c.stamp, c.id, c.asset, c.amount, c.direction, c.duration]
  }

  /** Length of "<name><token>" for field `f` at the head of `s`; 0 when it does not match. */
  function FieldLen(s: string, f: Field): (m: nat)
    ensures m == 0 || |f.name| < m <= |s|
  {
    if !StartsWith(s, f.name) then 0
    else
      var n := TokenLen(f.kind, s[|f.name|..]);
      if n == 0 then 0 else |f.name| + n
  }

  /** Match the fields `fs` at the very start of `s`, returning their tokens. */
  function MatchFields(s: string, fs: seq<Field>, sep: Sep): (r: Option<seq<string>>)
    ensures r.Some? ==> |r.value| == |fs|
    decreases |fs|
  {
    if fs == [] then Some([])
    else
      var m := FieldLen(s, fs[0]);
      if m == 0 then None
      else if |fs| == 1 then Some([s[|fs[0].name|..m]])
      else
        var g := GapLen(s[m..], sep);
        if g == 0 then None
        else match MatchFields(s[m..][g..], fs[1..], sep)
          case None => None
          case Some(t) => Some([s[|fs[0].name|..m]] + t)
  }

  /** The pattern anchored at the start of `s`. */
  function MatchHere(s: string, sep: Sep): Option<Captures> {
    match MatchFields(s, LogFields, sep)
    case None => None
    case Some(t) => Some(Captures(t[0], t[1], t[2], t[3], t[4], t[5]))
  }

  /** re.search: the match at the leftmost position where the pattern matches. */
  function Search(s: string, sep: Sep): Option<Captures>
    decreases |s|
  {
    if s == [] then None
    else match MatchHere(s, sep)
      case Some(c) => Some(c)
      case None => Search(s[1..], sep)
  }

  // ---------------------------------------------------------------------
  // Writing a line

  /** The fields laid out with the separators `gaps` between them. */
  function JoinFields(fs: seq<Field>, toks: seq<string>, gaps: seq<string>): string
    requires |toks| == |fs| && |gaps| + 1 == |fs|
    decreases |fs|
  {
    if |fs| == 1 then fs[0].name + toks[0]
    else fs[0].name + toks[0] + gaps[0] + JoinFields(fs[1..], toks[1..], gaps[1..])
  }

  function SingleSpaces(n: nat): (r: seq<string>)
    ensures |r| == n && forall i :: 0 <= i < n ==> r[i] == " "
  {
    seq(n, i => " ")
  }

  /**
   * The producers' log entry (mpo.py:123, mdr.py:118, miq.py:94):
   * "- Time: <time> Stamp: .. ID: .. Asset: .. Amount: .. Direction: .. Duration: ..\n".
   */
  function LogLine(time: string, c: Captures): string {
    "- Time: " + time + " " + JoinFields(LogFields, Tokens(c), SingleSpaces(5)) + "\n"
  }

  /** A token the matcher reads back whole: non-empty and its own longest match. */
  predicate ValidToken(k: Kind, t: string) { t != [] && TokenLen(k, t) == |t| }

  /** Every field of `c` is a token its field can hold. */
  predicate WellFormed(c: Captures) {
    ValidToken(Numeral, c.stamp) && ValidToken(Numeral, c.id) && ValidToken(AssetName, c.asset)
    && ValidToken(Numeral, c.amount) && ValidToken(Word, c.direction) && ValidToken(Numeral, c.duration)
  }

  /** The text of datetime.now(): digits, '-', ':', '.' and spaces, so never an 'S'. */
  predicate TimeText(t: string) {
    forall i :: 0 <= i < |t| ==> IsDigit(t[i]) || t[i] in "-:. "
  }

  /** A separator acceptable to `sep`. */
  predicate GapOk(g: string, sep: Sep) {
    match sep
    case OneSpace => g == " "
    case Whitespace => g != [] && forall i :: 0 <= i < |g| ==> IsSpace(g[i])
  }

  // ---------------------------------------------------------------------
  // Lemmas

  lemma {:induction false} RunStable(t: string, rest: string, k: CharClass)
    requires forall i :: 0 <= i < |t| ==> InClass(k, t[i])
    requires rest == [] || !InClass(k, rest[0])
    ensures Run(t + rest, k) == |t|
    decreases |t|
  {
    if t == [] {
      assert t + rest == rest;
    } else {
      assert (t + rest)[1..] == t[1..] + rest;
      RunStable(t[1..], rest, k);
    }
  }

  lemma {:induction false} RunPrefix(t: string, rest: string, k: CharClass)
    requires Run(t, k) < |t|
    ensures Run(t + rest, k) == Run(t, k)
    decreases |t|
  {
    if InClass(k, t[0]) {
      assert (t + rest)[1..] == t[1..] + rest;
      RunPrefix(t[1..], rest, k);
    }
  }

  /** A valid token followed by whitespace (or by nothing) is read back whole. */
  lemma TokenStable(k: Kind, t: string, rest: string)
    requires ValidToken(k, t)
    requires rest == [] || IsSpace(rest[0])
    ensures TokenLen(k, t + rest) == |t|
  {
    match k
    case AssetName => RunStable(t, rest, AssetChars);
    case Word => RunStable(t, rest, WordChars);
    case Numeral =>
      var a := Run(t, Digits);
      if a == |t| {
        RunStable(t, rest, Digits);
      } else {
        assert t[a] == '.';
        RunPrefix(t, rest, Digits);
        assert (t + rest)[a] == '.';
        assert (t + rest)[a + 1..] == t[a + 1..] + rest;
        RunStable(t[a + 1..], rest, Digits);
      }
  }

  /** A non-empty string of digits, such as str(n), is a valid numeral token. */
  lemma DigitsToken(t: string)
    requires t != [] && AllDigits(t)
    ensures ValidToken(Numeral, t)
  {
    RunStable(t, [], Digits);
    assert t + [] == t;
  }

  lemma NatTextToken(n: nat)
    ensures ValidToken(Numeral, NatText(n))
  {
    DigitsToken(NatText(n));
  }

  /** A valid numeral without a '.' is a string of digits. */
  lemma NumeralDigits(t: string)
    requires ValidToken(Numeral, t) && '.' !in t
    ensures AllDigits(t)
  {
    var a := Run(t, Digits);
    if a < |t| {
      assert false;
    }
  }

  /** A non-empty string of word (or asset) characters is a valid token. */
  lemma ClassToken(k: Kind, t: string)
    requires k != Numeral && t != []
    requires k == Word ==> forall i :: 0 <= i < |t| ==> IsWordChar(t[i])
    requires k == AssetName ==> forall i :: 0 <= i < |t| ==> IsAssetChar(t[i])
    ensures ValidToken(k, t)
  {
    assert t + [] == t;
    if k == Word { RunStable(t, [], WordChars); } else { RunStable(t, [], AssetChars); }
  }

  /** A field's name and valid token, followed by whitespace or nothing, are matched whole. */
  lemma FieldFound(f: Field, tok: string, r: string)
    requires ValidToken(f.kind, tok)
    requires r == [] || IsSpace(r[0])
    ensures FieldLen(f.name + tok + r, f) == |f.name| + |tok|
    ensures (f.name + tok + r)[|f.name|..|f.name| + |tok|] == tok
    ensures (f.name + tok + r)[|f.name| + |tok|..] == r
  {
    var s := f.name + tok + r;
    assert s[..|f.name|] == f.name;
    assert s[|f.name|..] == tok + r;
    TokenStable(f.kind, tok, r);
  }

  /** One field that is not the last, followed by an acceptable separator and the next field's name. */
  lemma MatchStep(fs: seq<Field>, tok: string, gap: string, r: string, sep: Sep)
    requires |fs| >= 2
    requires ValidToken(fs[0].kind, tok) && GapOk(gap, sep)
    requires r != [] && !IsSpace(r[0])
    ensures MatchFields(fs[0].name + tok + gap + r, fs, sep)
         == match MatchFields(r, fs[1..], sep) case None => None case Some(t) => Some([tok] + t)
  {
    var s := fs[0].name + tok + (gap + r);
    assert fs[0].name + tok + gap + r == s;
    assert gap != [] && IsSpace(gap[0]) by { if sep == OneSpace { assert gap == " "; } }
    FieldFound(fs[0], tok, gap + r);
    var m := |fs[0].name| + |tok|;
    assert GapLen(gap + r, sep) == |gap| by {
      if sep == Whitespace {
        RunStable(gap, r, Spaces);
      }
    }
    assert (gap + r)[|gap|..] == r;
  }

  /** The last field, followed by whitespace or nothing. */
  lemma MatchLast(fs: seq<Field>, tok: string, tail: string, sep: Sep)
    requires |fs| == 1
    requires ValidToken(fs[0].kind, tok)
    requires tail == [] || IsSpace(tail[0])
    ensures MatchFields(fs[0].name + tok + tail, fs, sep) == Some([tok])
  {
    FieldFound(fs[0], tok, tail);
  }

  predicate TokensValid(fs: seq<Field>, toks: seq<string>)
    requires |toks| == |fs|
  {
    forall i :: 0 <= i < |fs| ==> ValidToken(fs[i].kind, toks[i])
  }

  /** Every name starts with a character that cannot belong to a separator. */
  predicate NamesOk(fs: seq<Field>) {
    forall i :: 0 <= i < |fs| ==> fs[i].name != [] && !IsSpace(fs[i].name[0])
  }

  predicate GapsOk(gaps: seq<string>, sep: Sep) {
    forall i :: 0 <= i < |gaps| ==> GapOk(gaps[i], sep)
  }

  /** A layout of two or more fields is the first field, its separator and the layout of the rest. */
  lemma JoinHead(fs: seq<Field>, toks: seq<string>, gaps: seq<string>, tail: string)
    requires |toks| == |fs| >= 2 && |gaps| + 1 == |fs|
    requires fs[1].name != []
    ensures JoinFields(fs, toks, gaps) + tail
         == fs[0].name + toks[0] + gaps[0] + (JoinFields(fs[1..], toks[1..], gaps[1..]) + tail)
    ensures (JoinFields(fs[1..], toks[1..], gaps[1..]) + tail)[0] == fs[1].name[0]
  {
    JoinStartsWithLabel(fs[1..], toks[1..], gaps[1..]);
    Regroup(fs[0].name + toks[0] + gaps[0], JoinFields(fs[1..], toks[1..], gaps[1..]), tail, fs[1].name);
  }

  lemma Regroup(h: string, j: string, tail: string, name: string)
    requires name != [] && |j| >= |name| && j[..|name|] == name
    ensures (h + j) + tail == h + (j + tail)
    ensures (j + tail)[0] == name[0]
  {
    assert j[..|name|][0] == j[0];
  }

  /** MatchStep, when the rest of the line matches the remaining fields. */
  lemma MatchStepSome(fs: seq<Field>, tok: string, gap: string, r: string, sep: Sep, rest: seq<string>)
    requires |fs| >= 2
    requires ValidToken(fs[0].kind, tok) && GapOk(gap, sep)
    requires r != [] && !IsSpace(r[0])
    requires MatchFields(r, fs[1..], sep) == Some(rest)
    ensures MatchFields(fs[0].name + tok + gap + r, fs, sep) == Some([tok] + rest)
  {
    MatchStep(fs, tok, gap, r, sep);
  }

  /** The induction step of MatchJoined. */
  lemma MatchJoinedStep(fs: seq<Field>, toks: seq<string>, gaps: seq<string>, tail: string, sep: Sep)
    requires |toks| == |fs| >= 2 && |gaps| + 1 == |fs|
    requires ValidToken(fs[0].kind, toks[0]) && GapOk(gaps[0], sep)
    requires fs[1].name != [] && !IsSpace(fs[1].name[0])
    requires MatchFields(JoinFields(fs[1..], toks[1..], gaps[1..]) + tail, fs[1..], sep) == Some(toks[1..])
    ensures MatchFields(JoinFields(fs, toks, gaps) + tail, fs, sep) == Some(toks)
  {
    JoinHead(fs, toks, gaps, tail);
    MatchStepSome(fs, toks[0], gaps[0], JoinFields(fs[1..], toks[1..], gaps[1..]) + tail, sep, toks[1..]);
    assert [toks[0]] + toks[1..] == toks;
  }

  /**
   * Fields written with acceptable separators and valid tokens are matched back,
   * token for token, whatever follows them after a whitespace character.
   */
  lemma {:induction false} MatchJoined(fs: seq<Field>, toks: seq<string>, gaps: seq<string>, tail: string, sep: Sep)
    requires |toks| == |fs| && |gaps| + 1 == |fs|
    requires TokensValid(fs, toks) && NamesOk(fs) && GapsOk(gaps, sep)
    requires tail == [] || IsSpace(tail[0])
    ensures MatchFields(JoinFields(fs, toks, gaps) + tail, fs, sep) == Some(toks)
    decreases |fs|
  {
    if |fs| == 1 {
      MatchLast(fs, toks[0], tail, sep);
      assert JoinFields(fs, toks, gaps) == fs[0].name + toks[0];
      assert toks == [toks[0]];
    } else {
      var fs', toks', gaps' := fs[1..], toks[1..], gaps[1..];
      assert TokensValid(fs', toks') by {
        forall i | 0 <= i < |fs'| ensures ValidToken(fs'[i].kind, toks'[i]) {
          assert fs'[i] == fs[i + 1] && toks'[i] == toks[i + 1];
        }
      }
      assert NamesOk(fs') by {
        forall i | 0 <= i < |fs'| ensures fs'[i].name != [] && !IsSpace(fs'[i].name[0]) {
          assert fs'[i] == fs[i + 1];
        }
      }
      assert GapsOk(gaps', sep) by {
        forall i | 0 <= i < |gaps'| ensures GapOk(gaps'[i], sep) {
          assert gaps'[i] == gaps[i + 1];
        }
      }
      MatchJoined(fs', toks', gaps', tail, sep);
      MatchJoinedStep(fs, toks, gaps, tail, sep);
    }
  }

  lemma {:induction false} JoinStartsWithLabel(fs: seq<Field>, toks: seq<string>, gaps: seq<string>)
    requires |toks| == |fs| && |gaps| + 1 == |fs|
    ensures |JoinFields(fs, toks, gaps)| >= |fs[0].name|
    ensures JoinFields(fs, toks, gaps)[..|fs[0].name|] == fs[0].name
  {
    var nm := fs[0].name;
    if |fs| == 1 {
      assert (nm + toks[0])[..|nm|] == nm;
    } else {
      var j := JoinFields(fs[1..], toks[1..], gaps[1..]);
      assert (nm + toks[0] + gaps[0] + j)[..|nm|] == nm;
    }
  }

  /** Where the pattern does not match at the first position, the search goes on at the next. */
  lemma SearchStep(t: string, sep: Sep)
    requires t != [] && MatchHere(t, sep).None?
    ensures Search(t, sep) == Search(t[1..], sep)
  {
  }

  /** Skipping positions at which the pattern does not match does not change the search. */
  lemma {:induction false} SearchSkips(t: string, n: nat, sep: Sep)
    requires n <= |t|
    requires forall i :: 0 <= i < n ==> MatchHere(t[i..], sep).None?
    ensures Search(t, sep) == Search(t[n..], sep)
  {
    if n > 0 {
      SearchSkips(t, n - 1, sep);
      var u := t[n - 1..];
      assert MatchHere(u, sep).None?;
      SearchStep(u, sep);
      assert u[1..] == t[n..];
    } else {
      assert t[0..] == t;
    }
  }

  /** A prefix at none of whose positions the pattern matches does not change the search. */
  lemma SearchPrefix(pre: string, s: string, sep: Sep)
    requires forall i :: 0 <= i < |pre| ==> MatchHere((pre + s)[i..], sep).None?
    ensures Search(pre + s, sep) == Search(s, sep)
  {
    SearchSkips(pre + s, |pre|, sep);
    assert (pre + s)[|pre|..] == s;
  }

  /** Nothing matches where the first field does not. */
  lemma FirstFieldMissing(s: string, fs: seq<Field>, sep: Sep)
    requires fs != [] && FieldLen(s, fs[0]) == 0
    ensures MatchFields(s, fs, sep).None?
  {
  }

  /** The pattern cannot match where the text does not start with 'S'. */
  lemma NoMatchWithoutS(s: string, sep: Sep)
    requires s == [] || s[0] != 'S'
    ensures MatchHere(s, sep).None?
  {
    var f := LogFields[0];
    assert f.name == "Stamp: ";
    assert !StartsWith(s, f.name);
    FirstFieldMissing(s, LogFields, sep);
  }

  /** Any free text without an 'S' before the fields is ignored. */
  lemma SearchSkipsText(pre: string, s: string, sep: Sep)
    requires forall i :: 0 <= i < |pre| ==> pre[i] != 'S'
    ensures Search(pre + s, sep) == Search(s, sep)
  {
    forall i | 0 <= i < |pre| ensures MatchHere((pre + s)[i..], sep).None? {
      NoMatchWithoutS((pre + s)[i..], sep);
    }
    SearchPrefix(pre, s, sep);
  }

  lemma LogFieldsLabels()
    ensures NamesOk(LogFields)
  {
  }

  /**
   * Fields separated by any acceptable separators, after free text without an
   * 'S', are found by the search and give back exactly the tokens written.
   */
  lemma FieldsFound(pre: string, c: Captures, gaps: seq<string>, tail: string, sep: Sep)
    requires forall i :: 0 <= i < |pre| ==> pre[i] != 'S'
    requires WellFormed(c)
    requires |gaps| == 5 && GapsOk(gaps, sep)
    requires tail == [] || IsSpace(tail[0])
    ensures Search(pre + JoinFields(LogFields, Tokens(c), gaps) + tail, sep) == Some(c)
  {
    var j := JoinFields(LogFields, Tokens(c), gaps);
    WellFormedTokens(c);
    LogFieldsLabels();
    MatchJoined(LogFields, Tokens(c), gaps, tail, sep);
    SearchFindsFields(pre, j + tail, c, sep);
    Assoc(pre, j, tail);
  }

  /** The tokens of a well-formed capture are valid for their fields. */
  lemma WellFormedTokens(c: Captures)
    requires WellFormed(c)
    ensures TokensValid(LogFields, Tokens(c))
  {
    var toks := Tokens(c);
    forall i | 0 <= i < 6 ensures ValidToken(LogFields[i].kind, toks[i]) { }
  }

  /** The anchored match of the six fields, after free text without an 'S', is what the search finds. */
  lemma SearchFindsFields(pre: string, u: string, c: Captures, sep: Sep)
    requires forall i :: 0 <= i < |pre| ==> pre[i] != 'S'
    requires MatchFields(u, LogFields, sep) == Some(Tokens(c))
    ensures Search(pre + u, sep) == Some(c)
  {
    SearchSkipsText(pre, u, sep);
    assert u != [] by {
      if u == [] { FirstFieldMissing(u, LogFields, sep); }
    }
  }

  /** Grammar round trip: a producer's line is read back as the fields it was written from, by either consumer grammar. */
  lemma LogLineRoundTrip(time: string, c: Captures, sep: Sep)
    requires TimeText(time) && WellFormed(c)
    ensures Search(LogLine(time, c), sep) == Some(c)
  {
    var pre := "- Time: " + time + " ";
    forall i | 0 <= i < |pre| ensures pre[i] != 'S' {
      if 8 <= i < 8 + |time| { assert pre[i] == time[i - 8]; }
    }
    var gaps := SingleSpaces(5);
    assert GapsOk(gaps, sep);
    FieldsFound(pre, c, gaps, "\n", sep);
    assert LogLine(time, c) == pre + JoinFields(LogFields, Tokens(c), gaps) + "\n";
  }

  /** With the one-space grammar, a separator other than a single space right after the first field stops the match. */
  lemma OneSpaceBadGap(fs: seq<Field>, tok: string, gap: string, r: string)
    requires |fs| >= 2 && ValidToken(fs[0].kind, tok)
    requires GapOk(gap, Whitespace) && gap != " "
    requires fs[1].name != [] && !IsSpace(fs[1].name[0])
    ensures MatchFields(fs[0].name + tok + gap + r, fs, OneSpace).None?
  {
    var s := fs[0].name + tok + (gap + r);
    assert fs[0].name + tok + gap + r == s;
    FieldFound(fs[0], tok, gap + r);
    if gap[0] == ' ' {
      assert |gap| >= 2;
      var after := (gap + r)[1..];
      assert after[0] == gap[1];
      assert !StartsWith(after, fs[1].name);
      assert FieldLen(after, fs[1]) == 0;
    }
  }

  /** With the one-space grammar, a field followed by anything but exactly one space stops the match. */
  lemma {:induction false} OneSpaceRejectsOtherGaps(fs: seq<Field>, toks: seq<string>, gaps: seq<string>, tail: string, k: nat)
    requires |toks| == |fs| && |gaps| + 1 == |fs|
    requires TokensValid(fs, toks) && NamesOk(fs) && GapsOk(gaps, Whitespace)
    requires k < |gaps| && gaps[k] != " "
    ensures MatchFields(JoinFields(fs, toks, gaps) + tail, fs, OneSpace).None?
    decreases |fs|
  {
    var fs', toks', gaps' := fs[1..], toks[1..], gaps[1..];
    var j := JoinFields(fs', toks', gaps');
    var a := fs[0].name + toks[0] + gaps[0];
    assert JoinFields(fs, toks, gaps) == a + j;
    assert (a + j) + tail == a + (j + tail);
    assert ValidToken(fs[0].kind, toks[0]) && GapOk(gaps[0], Whitespace);
    assert fs[1].name != [] && !IsSpace(fs[1].name[0]);
    if gaps[0] != " " {
      OneSpaceBadGap(fs, toks[0], gaps[0], j + tail);
    } else {
      JoinStartsWithLabel(fs', toks', gaps');
      assert (j + tail)[0] == fs[1].name[0];
      assert TokensValid(fs', toks') by {
        forall i | 0 <= i < |fs'| ensures ValidToken(fs'[i].kind, toks'[i]) {
          assert fs'[i] == fs[i + 1] && toks'[i] == toks[i + 1];
        }
      }
      assert NamesOk(fs') by {
        forall i | 0 <= i < |fs'| ensures fs'[i].name != [] && !IsSpace(fs'[i].name[0]) {
          assert fs'[i] == fs[i + 1];
        }
      }
      assert GapsOk(gaps', Whitespace) by {
        forall i | 0 <= i < |gaps'| ensures GapOk(gaps'[i], Whitespace) {
          assert gaps'[i] == gaps[i + 1];
        }
      }
      OneSpaceRejectsOtherGaps(fs', toks', gaps', tail, k - 1);
      MatchStep(fs, toks[0], gaps[0], j + tail, OneSpace);
    }
  }

  /** A line whose fields are separated by other whitespace than single spaces is matched by the \s+ grammar. */
  lemma WhitespaceTolerated(pre: string, c: Captures, gaps: seq<string>, tail: string)
    requires forall i :: 0 <= i < |pre| ==> pre[i] != 'S'
    requires WellFormed(c)
    requires |gaps| == 5 && GapsOk(gaps, Whitespace)
    requires tail == [] || IsSpace(tail[0])
    ensures Search(pre + JoinFields(LogFields, Tokens(c), gaps) + tail, Whitespace) == Some(c)
  {
    FieldsFound(pre, c, gaps, tail, Whitespace);
  }

  /** ... while the one-space grammar does not match those fields at their position. */
  lemma OneSpaceRejects(c: Captures, gaps: seq<string>, tail: string, k: nat)
    requires WellFormed(c)
    requires |gaps| == 5 && GapsOk(gaps, Whitespace) && k < 5 && gaps[k] != " "
    ensures MatchHere(JoinFields(LogFields, Tokens(c), gaps) + tail, OneSpace).None?
  {
    WellFormedTokens(c);
    LogFieldsLabels();
    OneSpaceRejectsOtherGaps(LogFields, Tokens(c), gaps, tail, k);
    MatchHereNone(JoinFields(LogFields, Tokens(c), gaps) + tail, OneSpace);
  }

  lemma MatchHereNone(s: string, sep: Sep)
    requires MatchFields(s, LogFields, sep).None?
    ensures MatchHere(s, sep).None?
  {
  }
}
