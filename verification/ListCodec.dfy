/** Brace lists: the text form `{1,2,3}` in which drops, shops and item upgrades are stored,
    with the Go library calls that print and parse it written out over characters. */
module ListCodec {
  import opened Prelude

  // ---------------------------------------------------------------- library calls

  predicate IsDigit(c: char) {
    '0' <= c <= '9'
  }

  predicate IsSpace(c: char) {
    c == ' ' || c == '\t' || c == '\n' || c == '\r'
  }

  /** `strconv.Itoa` on a natural number. */
  function Digits(n: nat): string {
    if n < 10 then ['0' + n as char] else Digits(n / 10) + ['0' + (n % 10) as char]
  }

  /** One element as `fmt.Sprint` prints it. */
  function Itoa(n: int): string {
    if n < 0 then "-" + Digits(-n) else Digits(n)
  }

  function Words(xs: seq<int>): seq<string> {
    if xs == [] then [] else [Itoa(xs[0])] + Words(xs[1..])
  }

  /** `strings.Join`. */
  function Join(ws: seq<string>, sep: char): string {
    if ws == [] then ""
    else if |ws| == 1 then ws[0]
    else ws[0] + [sep] + Join(ws[1..], sep)
  }

  /** `fmt.Sprint` of an integer slice. */
  function Sprint(xs: seq<int>): string {
    "[" + Join(Words(xs), ' ') + "]"
  }

  function SkipSpaces(s: string): (r: string)
    ensures |r| <= |s|
    ensures r != "" ==> !IsSpace(r[0])
  {
    if s == "" || !IsSpace(s[0]) then s else SkipSpaces(s[1..])
  }

  function WordLength(s: string): (n: nat)
    ensures n <= |s|
    ensures s != "" && !IsSpace(s[0]) ==> 0 < n
  {
    if s == "" || IsSpace(s[0]) then 0 else 1 + WordLength(s[1..])
  }

  /** `strings.Fields`. */
  function Fields(s: string): seq<string>
    decreases |s|
  {
    var t := SkipSpaces(s);
    if t == "" then [] else [t[..WordLength(t)]] + Fields(t[WordLength(t)..])
  }

  function TrimLeft(s: string, cutset: string): string {
    if s == "" || s[0] !in cutset then s else TrimLeft(s[1..], cutset)
  }

  function TrimRight(s: string, cutset: string): string {
    if s == "" || s[|s| - 1] !in cutset then s else TrimRight(s[..|s| - 1], cutset)
  }

  /** `strings.Trim`. */
  function Trim(s: string, cutset: string): string {
    TrimRight(TrimLeft(s, cutset), cutset)
  }

  function PieceLength(s: string, sep: char): (n: nat)
    ensures n <= |s|
    ensures n < |s| ==> s[n] == sep
  {
    if s == "" || s[0] == sep then 0 else 1 + PieceLength(s[1..], sep)
  }

  /** `strings.Split` with a one-character separator: always at least one piece. */
  function Split(s: string, sep: char): (r: seq<string>)
    ensures r != []
    decreases |s|
  {
    var n := PieceLength(s, sep);
    if n == |s| then [s] else [s[..n]] + Split(s[n + 1..], sep)
  }

  datatype Scanned = Number(value: nat) | Syntax | Range

  /** `strconv.ParseUint` after its first digit: left to right, the first fault decides. */
  function Scan(s: string, acc: nat, max: nat): Scanned {
    if s == "" then Number(acc)
    else if !IsDigit(s[0]) then Syntax
    else
      var next := acc * 10 + (s[0] as int - '0' as int);
      if next > max then Range else Scan(s[1..], next, max)
  }

  function ParseUint(s: string, max: nat): Scanned {
    if s == "" then Syntax else Scan(s, 0, max)
  }

  /** `d, _ := strconv.Atoi(s)`: 0 on malformed text, the nearest bound when out of range. */
  function Atoi(s: string): int {
    var negative := s != "" && s[0] == '-';
    var body := if s != "" && (s[0] == '-' || s[0] == '+') then s[1..] else s;
    match ParseUint(body, TWO_64 - 1)
    case Syntax => 0
    case Range => if negative then -MAX_INT64 - 1 else MAX_INT64
    case Number(v) => if negative then -Min(v, MAX_INT64 + 1) else Min(v, MAX_INT64)
  }

  /** `u, _ := strconv.ParseUint(s, 10, 8); byte(u)`. */
  function ParseByte(s: string): (b: int)
    ensures 0 <= b < 256
  {
    match ParseUint(s, 255)
    case Syntax => 0
    case Range => 255
    case Number(v) => if v < 256 then v else 255
  }

  // ---------------------------------------------------------------- the stored text

  /** What every writer does: print, split on blanks, join with commas, swap the brackets. */
  function Format(xs: seq<int>): string {
    "{" + Trim(Join(Fields(Sprint(xs)), ','), "[]") + "}"
  }

  /** The pieces every reader sees. */
  function Pieces(text: string): seq<string> {
    Split(Trim(text, "{}"), ',')
  }

  function MapAtoi(ws: seq<string>): seq<int> {
    seq(|ws|, i requires 0 <= i < |ws| => Atoi(ws[i]))
  }

  function ParseInts(text: string): seq<int> {
    MapAtoi(Pieces(text))
  }

  function Positive(xs: seq<int>): (r: seq<int>)
    ensures forall x :: x in r <==> x in xs && x > 0
  {
    if xs == [] then []
    else (if xs[0] > 0 then [xs[0]] else []) + Positive(xs[1..])
  }

  // ---------------------------------------------------------------- numbers survive

  lemma {:induction false} DigitsAreDigits(n: nat)
    ensures |Digits(n)| > 0 && forall c :: c in Digits(n) ==> IsDigit(c)
  {
    if n >= 10 {
      DigitsAreDigits(n / 10);
    }
  }

  lemma {:induction false} ScanDigits(n: nat, rest: string, max: nat)
    requires n <= max
    ensures Scan(Digits(n) + rest, 0, max) == Scan(rest, n, max)
  {
    if n < 10 {
      assert (Digits(n) + rest)[1..] == rest;
    } else {
      var d := ['0' + (n % 10) as char];
      assert Digits(n) + rest == Digits(n / 10) + (d + rest);
      ScanDigits(n / 10, d + rest, max);
      assert (d + rest)[1..] == rest;
    }
  }

  lemma ParseUintOfDigits(n: nat, max: nat)
    requires n <= max
    ensures ParseUint(Digits(n), max) == Number(n)
  {
    DigitsAreDigits(n);
    ScanDigits(n, "", max);
    assert Digits(n) + "" == Digits(n);
  }

  lemma AtoiOfItoa(n: int)
    requires -MAX_INT64 - 1 <= n <= MAX_INT64
    ensures Atoi(Itoa(n)) == n
  {
    var m := if n < 0 then -n else n;
    DigitsAreDigits(m);
    ParseUintOfDigits(m, TWO_64 - 1);
    if n < 0 {
      assert Itoa(n)[1..] == Digits(m);
    } else {
      assert Digits(m)[0] in Digits(m);
    }
  }

  // ---------------------------------------------------------------- lists survive

  /** Characters a printed number is made of. */
  predicate IsNumeral(c: char) {
    IsDigit(c) || c == '-'
  }

  ghost predicate Numerals(ws: seq<string>) {
    forall i :: 0 <= i < |ws| ==> ws[i] != "" && forall c :: c in ws[i] ==> IsNumeral(c)
  }

  /** A word `strings.Fields` cannot break. */
  ghost predicate Solid(ws: seq<string>) {
    forall i :: 0 <= i < |ws| ==> ws[i] != "" && forall c :: c in ws[i] ==> !IsSpace(c)
  }

  lemma {:induction false} WordsOf(xs: seq<int>)
    ensures |Words(xs)| == |xs|
    ensures forall i :: 0 <= i < |xs| ==> Words(xs)[i] == Itoa(xs[i])
    ensures Numerals(Words(xs))
  {
    if xs != [] {
      WordsOf(xs[1..]);
      DigitsAreDigits(if xs[0] < 0 then -xs[0] else xs[0]);
      var ws := Words(xs);
      forall i | 0 <= i < |ws| ensures ws[i] != "" && forall c :: c in ws[i] ==> IsNumeral(c) {
        if i > 0 {
          assert ws[i] == Words(xs[1..])[i - 1];
        }
      }
    }
  }

  lemma {:induction false} WordLengthOf(w: string, rest: string)
    requires forall c :: c in w ==> !IsSpace(c)
    requires rest != "" ==> IsSpace(rest[0])
    ensures WordLength(w + rest) == |w|
  {
    if w == "" {
      assert w + rest == rest;
    } else {
      assert w[0] in w;
      assert (w + rest)[1..] == w[1..] + rest;
      WordLengthOf(w[1..], rest);
    }
  }

  lemma {:induction false} FieldsOfJoin(ws: seq<string>)
    requires Solid(ws)
    ensures Fields(Join(ws, ' ')) == ws
  {
    if ws != [] {
      var w, s := ws[0], Join(ws, ' ');
      var rest := if |ws| == 1 then "" else " " + Join(ws[1..], ' ');
      assert s == w + rest;
      assert w[0] in w;
      WordLengthOf(w, rest);
      assert s[..|w|] == w && s[|w|..] == rest;
      if |ws| > 1 {
        FieldsOfJoin(ws[1..]);
        assert rest[1..] == Join(ws[1..], ' ');
        assert SkipSpaces(rest) == SkipSpaces(rest[1..]);
        assert Fields(rest) == Fields(rest[1..]);
        assert ws == [w] + ws[1..];
      } else {
        assert Fields(rest) == [];
        assert ws == [w];
      }
    }
  }

  /** Square brackets written onto the first and the last word. */
  function Bracketed(ws: seq<string>): seq<string>
    requires ws != []
  {
    if |ws| == 1 then ["[" + ws[0] + "]"] else ["[" + ws[0]] + Closed(ws[1..])
  }

  function Closed(ws: seq<string>): seq<string>
    requires ws != []
  {
    if |ws| == 1 then [ws[0] + "]"] else [ws[0]] + Closed(ws[1..])
  }

  lemma {:induction false} JoinClosed(ws: seq<string>, sep: char)
    requires ws != []
    ensures Join(Closed(ws), sep) == Join(ws, sep) + "]"
    ensures Closed(ws) != []
  {
    if |ws| > 1 {
      JoinClosed(ws[1..], sep);
      assert Closed(ws)[1..] == Closed(ws[1..]);
    }
  }

  lemma JoinBracketed(ws: seq<string>, sep: char)
    requires ws != []
    ensures Join(Bracketed(ws), sep) == "[" + Join(ws, sep) + "]"
  {
    if |ws| > 1 {
      JoinClosed(ws[1..], sep);
      assert Bracketed(ws)[1..] == Closed(ws[1..]);
    }
  }

  lemma {:induction false} ClosedSolid(ws: seq<string>)
    requires ws != [] && Solid(ws)
    ensures Solid(Closed(ws))
  {
    if |ws| > 1 {
      assert Solid(ws[1..]);
      ClosedSolid(ws[1..]);
      var cs := Closed(ws);
      forall i | 0 <= i < |cs| ensures cs[i] != "" && forall c :: c in cs[i] ==> !IsSpace(c) {
        if i > 0 {
          assert cs[i] == Closed(ws[1..])[i - 1];
        }
      }
    }
  }

  lemma BracketedSolid(ws: seq<string>)
    requires ws == [""] || (ws != [] && Solid(ws))
    ensures Solid(Bracketed(ws))
  {
    if |ws| > 1 {
      assert Solid(ws[1..]);
      ClosedSolid(ws[1..]);
      var bs := Bracketed(ws);
      forall i | 0 <= i < |bs| ensures bs[i] != "" && forall c :: c in bs[i] ==> !IsSpace(c) {
        if i > 0 {
          assert bs[i] == Closed(ws[1..])[i - 1];
        }
      }
    }
  }

  lemma {:induction false} TrimLeftStops(s: string, cutset: string)
    requires forall c :: c in s ==> c !in cutset
    ensures TrimLeft(s, cutset) == s && TrimRight(s, cutset) == s
  {
    if s != "" {
      assert s[0] in s && s[|s| - 1] in s;
    }
  }

  /** Trimming takes off exactly the bracket pair. */
  lemma TrimWrapped(open: char, close: char, s: string)
    requires forall c :: c in s ==> c != open && c != close
    ensures Trim([open] + s + [close], [open, close]) == s
  {
    var cutset := [open, close];
    var wrapped := [open] + s + [close];
    var t := s + [close];
    assert wrapped[1..] == t;
    assert TrimLeft(wrapped, cutset) == TrimLeft(t, cutset);
    TrimLeftStops(s, cutset);
    if s == "" {
      assert t == [close] && t[1..] == "";
      assert TrimLeft(t, cutset) == "";
    } else {
      assert t[0] == s[0] && s[0] in s;
      assert TrimLeft(t, cutset) == t;
      assert t[..|t| - 1] == s;
    }
  }

  lemma {:induction false} JoinNumerals(ws: seq<string>)
    requires Numerals(ws)
    ensures forall c :: c in Join(ws, ',') ==> IsNumeral(c) || c == ','
  {
    if ws != [] {
      assert ws[0] == ws[0] && forall c :: c in ws[0] ==> IsNumeral(c);
      if |ws| > 1 {
        assert Numerals(ws[1..]);
        JoinNumerals(ws[1..]);
      }
    }
  }

  lemma {:induction false} PieceLengthOf(w: string, rest: string)
    requires forall c :: c in w ==> c != ','
    requires rest != "" ==> rest[0] == ','
    ensures PieceLength(w + rest, ',') == |w|
  {
    if w == "" {
      assert w + rest == rest;
    } else {
      assert w[0] in w;
      assert (w + rest)[1..] == w[1..] + rest;
      assert forall c :: c in w[1..] ==> c in w;
      PieceLengthOf(w[1..], rest);
    }
  }

  lemma {:induction false} SplitOfJoin(ws: seq<string>)
    requires Numerals(ws) && ws != []
    ensures Split(Join(ws, ','), ',') == ws
  {
    var w, s := ws[0], Join(ws, ',');
    var rest := if |ws| == 1 then "" else "," + Join(ws[1..], ',');
    assert s == w + rest;
    assert forall c :: c in w ==> IsNumeral(c);
    PieceLengthOf(w, rest);
    assert s[..|w|] == w;
    if |ws| > 1 {
      SplitOfJoin(ws[1..]);
      assert s[|w| + 1..] == Join(ws[1..], ',');
      assert ws == [w] + ws[1..];
    } else {
      assert ws == [w];
    }
  }

  /** The stored text is the comma-joined numbers between braces. */
  lemma FormatIs(xs: seq<int>)
    ensures Format(xs) == "{" + Join(Words(xs), ',') + "}"
  {
    WordsOf(xs);
    var ws := if xs == [] then [""] else Words(xs);
    BracketedSolid(ws);
    JoinBracketed(ws, ' ');
    FieldsOfJoin(Bracketed(ws));
    JoinBracketed(ws, ',');
    JoinNumerals(Words(xs));
    TrimWrapped('[', ']', Join(Words(xs), ','));
    assert Sprint(xs) == Join(Bracketed(ws), ' ');
  }

  /** Readers see one piece per number, and one empty piece for the empty list. */
  lemma PiecesOfFormat(xs: seq<int>)
    ensures Pieces(Format(xs)) == if xs == [] then [""] else Words(xs)
  {
    FormatIs(xs);
    WordsOf(xs);
    JoinNumerals(Words(xs));
    TrimWrapped('{', '}', Join(Words(xs), ','));
    if xs != [] {
      SplitOfJoin(Words(xs));
    }
  }

  /** Round trip for every list of Go ints; the empty list comes back as one zero. */
  lemma RoundTrip(xs: seq<int>)
    requires forall i :: 0 <= i < |xs| ==> -MAX_INT64 - 1 <= xs[i] <= MAX_INT64
    ensures ParseInts(Format(xs)) == if xs == [] then [0] else xs
  {
    PiecesOfFormat(xs);
    WordsOf(xs);
    if xs == [] {
      assert MapAtoi([""]) == [Atoi("")];
    } else {
      forall i | 0 <= i < |xs| ensures Atoi(Words(xs)[i]) == xs[i] {
        AtoiOfItoa(xs[i]);
      }
    }
  }

  /** Two lists print alike only when they are equal. */
  lemma FormatInjective(xs: seq<int>, ys: seq<int>)
    requires forall i :: 0 <= i < |xs| ==> -MAX_INT64 - 1 <= xs[i] <= MAX_INT64
    requires forall i :: 0 <= i < |ys| ==> -MAX_INT64 - 1 <= ys[i] <= MAX_INT64
    ensures Format(xs) == Format(ys) <==> xs == ys
  {
    PiecesOfFormat(xs);
    PiecesOfFormat(ys);
    WordsOf(xs);
    WordsOf(ys);
    RoundTrip(xs);
    RoundTrip(ys);
    if xs == [] && ys != [] {
      assert Words(ys)[0] != "";
    } else if ys == [] && xs != [] {
      assert Words(xs)[0] != "";
    }
  }
}
