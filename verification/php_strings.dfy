/** The PHP string primitives the controller relies on, over `string`
    (a sequence of characters): case-insensitive search (`stripos`),
    character replacement (`str_replace('\\', '/', …)`), splitting on runs
    of whitespace (`preg_split('/\s+/', …)`), the numeric-string test
    (`is_numeric`) and decimal formatting of integers (`%d` and string
    interpolation). Case folding is ASCII-only, as in `stripos` and
    `strtoupper` under PHP 7's default "C" locale. */
module PhpStrings {
  import opened Wrappers

  // ---------------------------------------------------------------------
  // Case folding
  // ---------------------------------------------------------------------

  function LowerChar(c: char): char {
    if 'A' <= c <= 'Z' then (c as int + 32) as char else c
  }

  function UpperChar(c: char): char {
    if 'a' <= c <= 'z' then (c as int - 32) as char else c
  }

  function Lower(s: string): (r: string)
    ensures |r| == |s|
  {
    seq(|s|, i requires 0 <= i < |s| => LowerChar(s[i]))
  }

  function Upper(s: string): (r: string)
    ensures |r| == |s|
  {
    seq(|s|, i requires 0 <= i < |s| => UpperChar(s[i]))
  }

  // ---------------------------------------------------------------------
  // stripos
  // ---------------------------------------------------------------------

  /** `needle` occurs at offset `i` of `haystack`, ignoring ASCII case. */
  predicate MatchesAt(haystack: string, needle: string, i: nat) {
    i + |needle| <= |haystack| && Lower(haystack[i..i + |needle|]) == Lower(needle)
  }

  /** `needle` occurs somewhere in `haystack`, ignoring ASCII case. */
  predicate ContainsIgnoreCase(haystack: string, needle: string) {
    exists i :: 0 <= i <= |haystack| && MatchesAt(haystack, needle, i)
  }

  /** `stripos($haystack, $needle)`: the offset of the first case-insensitive
      occurrence, or None where PHP returns `false`. */
  function Stripos(haystack: string, needle: string): (r: Option<nat>)
    ensures r.Some? ==> MatchesAt(haystack, needle, r.value)
    ensures r.Some? ==> forall i :: 0 <= i < r.value ==> !MatchesAt(haystack, needle, i)
    ensures r.None? <==> !ContainsIgnoreCase(haystack, needle)
  {
    FindFrom(haystack, needle, 0)
  }

  /** The first case-insensitive occurrence at or after `from`. */
  function FindFrom(haystack: string, needle: string, from: nat): (r: Option<nat>)
    requires from <= |haystack|
    ensures r.Some? ==> from <= r.value <= |haystack| && MatchesAt(haystack, needle, r.value)
    ensures r.Some? ==> forall i :: from <= i < r.value ==> !MatchesAt(haystack, needle, i)
    ensures r.None? ==> forall i :: from <= i <= |haystack| ==> !MatchesAt(haystack, needle, i)
    decreases |haystack| - from
  {
    if MatchesAt(haystack, needle, from) then Some(from)
    else if from == |haystack| then None
    else FindFrom(haystack, needle, from + 1)
  }

  // ---------------------------------------------------------------------
  // str_replace('\\', '/', …)
  // ---------------------------------------------------------------------

  /** Every backslash becomes a forward slash; nothing else changes. */
  function ReplaceBackslashes(s: string): (r: string)
    ensures |r| == |s|
    ensures '\\' !in r
    ensures forall i :: 0 <= i < |s| && s[i] != '\\' ==> r[i] == s[i]
    ensures forall i :: 0 <= i < |s| && s[i] == '\\' ==> r[i] == '/'
  {
    var r := seq(|s|, i requires 0 <= i < |s| => if s[i] == '\\' then '/' else s[i]);
    assert forall i :: 0 <= i < |r| ==> r[i] != '\\';
    r
  }

  // ---------------------------------------------------------------------
  // preg_split('/\s+/', …)
  // ---------------------------------------------------------------------

  /** The PCRE `\s` class: space, and tab, line feed, vertical tab, form
      feed and carriage return (code points 9 to 13). */
  predicate IsSpace(c: char) {
    c == ' ' || '\t' <= c <= '\r'
  }

  predicate NoSpace(s: string) {
    forall i :: 0 <= i < |s| ==> !IsSpace(s[i])
  }

  predicate AllSpace(s: string) {
    forall i :: 0 <= i < |s| ==> IsSpace(s[i])
  }

  /** `preg_split('/\s+/', s)`: the pieces between maximal runs of
      whitespace. Leading (trailing) whitespace yields an empty first (last)
      piece, and the empty string yields one empty piece. */
  function SplitOnSpace(s: string): (r: seq<string>)
    ensures |r| >= 1
    ensures forall k :: 0 <= k < |r| ==> NoSpace(r[k])
    ensures forall k :: 0 < k < |r| - 1 ==> |r[k]| > 0
    ensures |s| > 0 && IsSpace(s[0]) ==> r[0] == ""
    ensures |s| > 0 && !IsSpace(s[0]) ==> |r[0]| > 0 && r[0][0] == s[0]
    decreases |s|
  {
    if |s| == 0 then [""]
    else
      var rest := SplitOnSpace(s[1..]);
      if IsSpace(s[0]) then
        if |s| > 1 && IsSpace(s[1]) then rest else [""] + rest
      else
        [[s[0]] + rest[0]] + rest[1..]
  }

  /** The characters of `s` that are not whitespace, in order. */
  function RemoveSpace(s: string): (r: string)
    ensures NoSpace(r)
  {
    if |s| == 0 then ""
    else (if IsSpace(s[0]) then "" else [s[0]]) + RemoveSpace(s[1..])
  }

  function Concat(ts: seq<string>): string {
    if |ts| == 0 then "" else ts[0] + Concat(ts[1..])
  }

  /** Whitespace separators: each one a non-empty run of whitespace. */
  predicate Gaps(seps: seq<string>) {
    forall k :: 0 <= k < |seps| ==> |seps[k]| > 0 && AllSpace(seps[k])
  }

  /** The pieces glued back together, with `seps[k]` between pieces `k` and
      `k + 1`. */
  function Join(ts: seq<string>, seps: seq<string>): string
    requires |ts| >= 1 && |seps| == |ts| - 1
  {
    if |ts| == 1 then ts[0] else ts[0] + seps[0] + Join(ts[1..], seps[1..])
  }

  /** `Concat` peels off its first piece. */
  lemma ConcatCons(t: string, ts: seq<string>)
    ensures Concat([t] + ts) == t + Concat(ts)
  {
    assert ([t] + ts)[1..] == ts;
  }

  /** Splitting loses nothing but whitespace. */
  lemma {:induction false} SplitKeepsNonSpace(s: string)
    ensures Concat(SplitOnSpace(s)) == RemoveSpace(s)
    decreases |s|
  {
    if |s| > 0 {
      var rest := SplitOnSpace(s[1..]);
      SplitKeepsNonSpace(s[1..]);
      if IsSpace(s[0]) {
        assert RemoveSpace(s) == RemoveSpace(s[1..]);
        if !(|s| > 1 && IsSpace(s[1])) {
          assert SplitOnSpace(s) == [""] + rest;
          ConcatCons("", rest);
          assert "" + Concat(rest) == Concat(rest);
        }
      } else {
        assert RemoveSpace(s) == [s[0]] + RemoveSpace(s[1..]);
        assert SplitOnSpace(s) == [[s[0]] + rest[0]] + rest[1..];
        ConcatCons([s[0]] + rest[0], rest[1..]);
        assert rest == [rest[0]] + rest[1..];
        ConcatCons(rest[0], rest[1..]);
        assert ([s[0]] + rest[0]) + Concat(rest[1..]) == [s[0]] + (rest[0] + Concat(rest[1..]));
      }
    }
  }

  /** A whitespace-free prefix glues onto the first piece of what follows. */
  lemma {:induction false} SplitAfterWord(t: string, s: string)
    requires NoSpace(t)
    ensures SplitOnSpace(t + s) == [t + SplitOnSpace(s)[0]] + SplitOnSpace(s)[1..]
    decreases |t|
  {
    if |t| == 0 {
      var x := SplitOnSpace(s);
      assert t + s == s;
      assert t + x[0] == x[0];
      assert [x[0]] + x[1..] == x;
    } else {
      assert (t + s)[1..] == t[1..] + s;
      SplitAfterWord(t[1..], s);
      assert [t[0]] + (t[1..] + SplitOnSpace(s)[0]) == t + SplitOnSpace(s)[0];
    }
  }

  /** A non-empty whitespace run before a word (or the end) opens one empty piece. */
  lemma {:induction false} SplitAfterSpace(w: string, s: string)
    requires |w| > 0 && AllSpace(w)
    requires |s| == 0 || !IsSpace(s[0])
    ensures SplitOnSpace(w + s) == [""] + SplitOnSpace(s)
    decreases |w|
  {
    assert (w + s)[1..] == w[1..] + s;
    if |w| > 1 {
      SplitAfterSpace(w[1..], s);
    } else {
      assert w[1..] + s == s;
    }
  }

  /** A joined listing starts with its first piece. */
  lemma {:induction false} JoinStartsWithFirst(ts: seq<string>, seps: seq<string>)
    requires |ts| >= 1 && |seps| == |ts| - 1 && |ts[0]| > 0
    ensures |Join(ts, seps)| > 0 && Join(ts, seps)[0] == ts[0][0]
  {
  }

  /** The split of a trailing whitespace run: one empty piece, plus another
      when the run is non-empty. */
  lemma SplitTrail(trail: string)
    requires AllSpace(trail)
    ensures SplitOnSpace(trail) == [""] + (if |trail| > 0 then [""] else [])
  {
    if |trail| > 0 {
      SplitAfterSpace(trail, "");
      assert trail + "" == trail;
    }
  }

  /** A word followed by trailing whitespace is its own piece. */
  lemma SplitWordThenTrail(t: string, trail: string)
    requires NoSpace(t) && AllSpace(trail)
    ensures SplitOnSpace(t + trail) == [t] + (if |trail| > 0 then [""] else [])
  {
    SplitTrail(trail);
    SplitAfterWord(t, trail);
    assert t + "" == t;
  }

  /** Pieces joined by whitespace runs, followed by optional trailing
      whitespace, split back into the same pieces (plus an empty one for the
      trailing run). */
  lemma {:induction false} SplitJoinTrailing(ts: seq<string>, seps: seq<string>, trail: string)
    requires |ts| >= 1 && |seps| == |ts| - 1
    requires forall k :: 0 <= k < |ts| ==> |ts[k]| > 0 && NoSpace(ts[k])
    requires Gaps(seps) && AllSpace(trail)
    ensures SplitOnSpace(Join(ts, seps) + trail) == ts + (if |trail| > 0 then [""] else [])
    decreases |ts|
  {
    var tail: seq<string> := if |trail| > 0 then [""] else [];
    if |ts| == 1 {
      SplitWordThenTrail(ts[0], trail);
      assert [ts[0]] == ts;
    } else {
      var rest := Join(ts[1..], seps[1..]) + trail;
      JoinStartsWithFirst(ts[1..], seps[1..]);
      JoinCons(ts, seps);
      Regroup(ts[0], seps[0], Join(ts[1..], seps[1..]), trail);
      SplitWordThenSpace(ts[0], seps[0], rest);
      SplitJoinTrailing(ts[1..], seps[1..], trail);
      assert [ts[0]] + (ts[1..] + tail) == ts + tail;
    }
  }

  /** A listing of two or more pieces: the first, its gap, then the rest. */
  lemma JoinCons(ts: seq<string>, seps: seq<string>)
    requires |ts| >= 2 && |seps| == |ts| - 1
    ensures Join(ts, seps) == ts[0] + seps[0] + Join(ts[1..], seps[1..])
  {
  }

  lemma Regroup(a: string, b: string, c: string, d: string)
    ensures a + b + c + d == a + (b + (c + d))
  {
  }

  /** A word followed by a whitespace run and a word-initial rest is its own
      piece. */
  lemma SplitWordThenSpace(t: string, sep: string, rest: string)
    requires |t| > 0 && NoSpace(t)
    requires |sep| > 0 && AllSpace(sep)
    requires |rest| > 0 && !IsSpace(rest[0])
    ensures SplitOnSpace(t + (sep + rest)) == [t] + SplitOnSpace(rest)
  {
    SplitAfterWord(t, sep + rest);
    SplitAfterSpace(sep, rest);
    var y := SplitOnSpace(sep + rest);
    assert y[0] == "" && y[1..] == SplitOnSpace(rest);
    assert t + "" == t;
  }

  /** The round trip for padded listings whose pieces are separated by
      whitespace runs of any lengths: the pieces come back in order, with
      empty pieces only for the padding. */
  lemma SplitJoinPadded(ts: seq<string>, seps: seq<string>, lead: string, trail: string)
    requires |ts| >= 1 && |seps| == |ts| - 1
    requires forall k :: 0 <= k < |ts| ==> |ts[k]| > 0 && NoSpace(ts[k])
    requires Gaps(seps) && AllSpace(lead) && AllSpace(trail)
    ensures SplitOnSpace(lead + Join(ts, seps) + trail)
         == (if |lead| > 0 then [""] else []) + ts + (if |trail| > 0 then [""] else [])
  {
    var body := Join(ts, seps) + trail;
    SplitJoinTrailing(ts, seps, trail);
    assert lead + Join(ts, seps) + trail == lead + body;
    if |lead| > 0 {
      JoinStartsWithFirst(ts, seps);
      SplitAfterSpace(lead, body);
    } else {
      assert lead + body == body;
    }
  }

  // ---------------------------------------------------------------------
  // is_numeric
  // ---------------------------------------------------------------------

  predicate IsDigit(c: char) {
    '0' <= c <= '9'
  }

  predicate AllDigits(s: string) {
    forall i :: 0 <= i < |s| ==> IsDigit(s[i])
  }

  /** The offset of the first `a` or `b` in `s`, or `|s|` when there is none. */
  function FirstOf(s: string, a: char, b: char): (r: nat)
    ensures r <= |s|
    ensures r < |s| ==> s[r] == a || s[r] == b
    ensures forall i :: 0 <= i < r ==> s[i] != a && s[i] != b
  {
    if |s| == 0 then 0
    else if s[0] == a || s[0] == b then 0
    else 1 + FirstOf(s[1..], a, b)
  }

  function DropSign(s: string): string {
    if |s| > 0 && (s[0] == '+' || s[0] == '-') then s[1..] else s
  }

  /** Digits with at most one '.', and at least one digit. */
  predicate IsMantissa(m: string) {
    var d := FirstOf(m, '.', '.');
    if d == |m| then |m| > 0 && AllDigits(m)
    else |m| >= 2 && AllDigits(m[..d]) && AllDigits(m[d + 1..])
  }

  /** An optional sign followed by at least one digit. */
  predicate IsExponentDigits(x: string) {
    |DropSign(x)| > 0 && AllDigits(DropSign(x))
  }

  /** `is_numeric` on a whitespace-free string: an optional sign, a decimal
      mantissa, and an optional exponent introduced by `e` or `E`. */
  predicate IsNumeric(s: string) {
    var body := DropSign(s);
    var e := FirstOf(body, 'e', 'E');
    IsMantissa(body[..e]) && (e == |body| || IsExponentDigits(body[e + 1..]))
  }

  /** A non-empty run of digits is numeric. */
  lemma DigitsAreNumeric(s: string)
    requires |s| > 0 && AllDigits(s)
    ensures IsNumeric(s)
  {
    assert DropSign(s) == s;
    assert forall i :: 0 <= i < |s| ==> s[i] != 'e' && s[i] != 'E' && s[i] != '.';
    var e := FirstOf(s, 'e', 'E');
    assert e == |s|;
    assert s[..e] == s;
    assert FirstOf(s, '.', '.') == |s|;
  }

  /** What `is_numeric` accepts and rejects: a sign, a fraction and a signed
      exponent are accepted; a second point, a lone sign, an exponent without
      digits and hexadecimal are not. */
  lemma NumericExamples()
    ensures IsNumeric("+1.5") && IsNumeric("2E-3")
    ensures !IsNumeric("1.2.3") && !IsNumeric("-") && !IsNumeric("1e") && !IsNumeric("0x1A")
  {
    SignedFractionIsNumeric();
    SignedExponentIsNumeric();
    SecondPointIsNotNumeric();
    LoneSignIsNotNumeric();
    EmptyExponentIsNotNumeric();
    HexadecimalIsNotNumeric();
  }

  lemma SignedFractionIsNumeric()
    ensures IsNumeric("+1.5")
  {
    assert DropSign("+1.5") == "1.5";
    assert FirstOf("1.5", 'e', 'E') == 3;
    assert "1.5"[..3] == "1.5";
    assert FirstOf("1.5", '.', '.') == 1;
    assert "1.5"[..1] == "1" && "1.5"[2..] == "5";
  }

  lemma SignedExponentIsNumeric()
    ensures IsNumeric("2E-3")
  {
    assert DropSign("2E-3") == "2E-3";
    assert FirstOf("2E-3", 'e', 'E') == 1;
    assert "2E-3"[..1] == "2" && "2E-3"[2..] == "-3";
    assert FirstOf("2", '.', '.') == 1;
    assert DropSign("-3") == "3";
  }

  lemma SecondPointIsNotNumeric()
    ensures !IsNumeric("1.2.3")
  {
    assert FirstOf("1.2.3", 'e', 'E') == 5;
    assert "1.2.3"[..5] == "1.2.3";
    assert FirstOf("1.2.3", '.', '.') == 1;
    assert "1.2.3"[2..] == "2.3" && !IsDigit("2.3"[1]);
  }

  lemma LoneSignIsNotNumeric()
    ensures !IsNumeric("-")
  {
    assert DropSign("-") == "";
  }

  lemma EmptyExponentIsNotNumeric()
    ensures !IsNumeric("1e")
  {
    assert FirstOf("1e", 'e', 'E') == 1;
    assert "1e"[2..] == "";
  }

  lemma HexadecimalIsNotNumeric()
    ensures !IsNumeric("0x1A")
  {
    assert FirstOf("0x1A", 'e', 'E') == 4;
    assert "0x1A"[..4] == "0x1A";
    assert FirstOf("0x1A", '.', '.') == 4;
    assert !IsDigit("0x1A"[1]);
  }

  /** Every string `is_numeric` accepts holds a digit. */
  lemma NumericHasDigit(s: string)
    requires IsNumeric(s)
    ensures exists i :: 0 <= i < |s| && IsDigit(s[i])
  {
    var body := DropSign(s);
    var off := if |s| > 0 && (s[0] == '+' || s[0] == '-') then 1 else 0;
    assert body == s[off..];
    var m := body[..FirstOf(body, 'e', 'E')];
    var d := FirstOf(m, '.', '.');
    var i: nat := if d == |m| then 0 else if d > 0 then 0 else d + 1;
    assert i < |m| && IsDigit(m[i]);
    assert s[off + i] == m[i];
  }

  // ---------------------------------------------------------------------
  // Decimal formatting
  // ---------------------------------------------------------------------

  function DigitChar(d: nat): (c: char)
    requires d < 10
    ensures IsDigit(c)
  {
    ('0' as int + d) as char
  }

  function DigitValue(c: char): nat
    requires IsDigit(c)
  {
    c as int - '0' as int
  }

  /** The canonical decimal spelling of `n`: digits only, and no leading zero
      unless `n` is zero. */
  function NatToDecimal(n: nat): (r: string)
    ensures |r| >= 1 && AllDigits(r)
    ensures r[0] == '0' ==> n == 0 && r == "0"
    decreases n
  {
    if n < 10 then [DigitChar(n)]
    else NatToDecimal(n / 10) + [DigitChar(n % 10)]
  }

  /** The value of a string of decimal digits. */
  function DecimalValue(s: string): nat
    requires AllDigits(s)
    decreases |s|
  {
    if |s| == 0 then 0
    else DecimalValue(s[..|s| - 1]) * 10 + DigitValue(s[|s| - 1])
  }

  /** Reading back the formatted decimal gives the number. */
  lemma {:induction false} DecimalRoundTrip(n: nat)
    ensures DecimalValue(NatToDecimal(n)) == n
    decreases n
  {
    if n >= 10 {
      var r := NatToDecimal(n);
      DecimalRoundTrip(n / 10);
      assert r[..|r| - 1] == NatToDecimal(n / 10);
    }
  }

  /** Formatting is injective: different pids give different strings. */
  lemma DecimalInjective(m: nat, n: nat)
    requires NatToDecimal(m) == NatToDecimal(n)
    ensures m == n
  {
    DecimalRoundTrip(m);
    DecimalRoundTrip(n);
  }

  /** `sprintf('%d', i)`: a minus sign for negative numbers, then the digits. */
  function IntToDecimal(i: int): (r: string)
    ensures |r| >= 1
    ensures r[0] == '-' <==> i < 0
    ensures i >= 0 ==> AllDigits(r) && DecimalValue(r) == i && (r[0] == '0' ==> i == 0)
    ensures r[0] == '0' ==> r == "0"
    ensures i < 0 ==> |r| >= 2 && AllDigits(r[1..]) && DecimalValue(r[1..]) == -i && r[1] != '0'
  {
    DecimalRoundTrip(if i < 0 then -i else i);
    if i < 0 then "-" + NatToDecimal(-i) else NatToDecimal(i)
  }

}
