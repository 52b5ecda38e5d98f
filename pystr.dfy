/** The parts of Python's `str` behaviour that the lookup code depends on.
    Whitespace follows `str.isspace()`; letters, digits, case mapping and the
    regular-expression class `\w` are modelled for ASCII characters only. */
module PyStr {
  import opened Wrappers

  /** `c.isspace()`: what `strip()`, `split()` and the regex class `\s` treat as whitespace. */
  predicate IsSpace(c: char) {
    || c == ' '
    || ('\t' <= c <= '\r')
    || ('\U{1c}' <= c <= '\U{1f}')
    || c == '\U{85}' || c == '\U{a0}' || c == '\U{1680}'
    || ('\U{2000}' <= c <= '\U{200a}')
    || c == '\U{2028}' || c == '\U{2029}' || c == '\U{202f}' || c == '\U{205f}' || c == '\U{3000}'
  }

  predicate IsUpper(c: char) { 'A' <= c <= 'Z' }
  predicate IsLower(c: char) { 'a' <= c <= 'z' }
  predicate IsDigit(c: char) { '0' <= c <= '9' }

  /** The regex class `\w`. */
  predicate IsWordChar(c: char) { IsUpper(c) || IsLower(c) || IsDigit(c) || c == '_' }

  predicate AllDigits(s: string) { forall i :: 0 <= i < |s| ==> IsDigit(s[i]) }

  /** `any(ch.isdigit() for ch in s)` */
  predicate HasDigit(s: string) { exists i :: 0 <= i < |s| && IsDigit(s[i]) }

  function LowerChar(c: char): (d: char)
    ensures !IsUpper(d)
    ensures IsSpace(d) == IsSpace(c) && IsWordChar(d) == IsWordChar(c)
  {
    if IsUpper(c) then (c as int + 32) as char else c
  }

  function UpperChar(c: char): (d: char)
    ensures !IsLower(d)
    ensures IsSpace(d) == IsSpace(c)
  {
    if IsLower(c) then (c as int - 32) as char else c
  }

  /** `s.lower()` */
  function Lower(s: string): string {
    seq(|s|, i requires 0 <= i < |s| => LowerChar(s[i]))
  }

  /** `s.upper()` */
  function Upper(s: string): string {
    seq(|s|, i requires 0 <= i < |s| => UpperChar(s[i]))
  }

  predicate NoUpper(s: string) { forall i :: 0 <= i < |s| ==> !IsUpper(s[i]) }

  /** Upper-casing a string gives the same result as upper-casing its lower-cased form. */
  lemma UpperOfLower(s: string)
    ensures Upper(Lower(s)) == Upper(s)
  {
    forall i | 0 <= i < |s| ensures Upper(Lower(s))[i] == Upper(s)[i] {
      var c := s[i];
      if IsUpper(c) {
        assert LowerChar(c) as int == c as int + 32;
      }
    }
  }

  // ---------------------------------------------------------------- strip

  /** The first position at or after `i` whose character is not dropped. */
  function SkipWhere(s: string, drop: char -> bool, i: nat): (j: nat)
    requires i <= |s|
    ensures i <= j <= |s| && (j == |s| || !drop(s[j]))
    ensures forall k :: i <= k < j ==> drop(s[k])
    decreases |s| - i
  {
    if i == |s| || !drop(s[i]) then i else SkipWhere(s, drop, i + 1)
  }

  /** The end of the last run of kept characters at or before `j`. */
  function SkipBackWhere(s: string, drop: char -> bool, j: nat): (i: nat)
    requires j <= |s|
    ensures i <= j && (i == 0 || !drop(s[i - 1]))
    ensures forall k :: i <= k < j ==> drop(s[k])
    decreases j
  {
    if j == 0 || !drop(s[j - 1]) then j else SkipBackWhere(s, drop, j - 1)
  }

  /** `s.rstrip(chars)`, where `drop` says which characters are in `chars`. */
  function TrimEndWhere(s: string, drop: char -> bool): string {
    s[..SkipBackWhere(s, drop, |s|)]
  }

  predicate IsStrippedWhere(s: string, drop: char -> bool) {
    s == [] || (!drop(s[0]) && !drop(s[|s| - 1]))
  }

  /** `s.strip(chars)`: the part of `s` between its first and its last kept character;
      empty exactly when every character of `s` is dropped. */
  function StripWhere(s: string, drop: char -> bool): (r: string)
    ensures |r| <= |s| && IsStrippedWhere(r, drop)
    ensures r == [] <==> forall i :: 0 <= i < |s| ==> drop(s[i])
  {
    var lo := SkipWhere(s, drop, 0);
    var hi := SkipBackWhere(s, drop, |s|);
    if hi <= lo then "" else s[lo..hi]
  }

  /** `s.strip()` */
  function Strip(s: string): string {
    StripWhere(s, IsSpace)
  }

  predicate IsStripped(s: string) { IsStrippedWhere(s, IsSpace) }

  /** The trimmed string is a slice of the string. */
  lemma StripIsSlice(s: string) returns (lo: nat, hi: nat)
    ensures lo <= hi <= |s| && Strip(s) == s[lo..hi]
  {
    lo := SkipWhere(s, IsSpace, 0);
    hi := SkipBackWhere(s, IsSpace, |s|);
    if hi <= lo {
      lo, hi := 0, 0;
    }
  }

  /** A string that neither starts nor ends with a dropped character is left alone. */
  lemma StripOfStripped(s: string, drop: char -> bool)
    requires IsStrippedWhere(s, drop)
    ensures StripWhere(s, drop) == s
  {
    if s != [] {
      assert SkipWhere(s, drop, 0) == 0;
      assert SkipBackWhere(s, drop, |s|) == |s|;
    }
  }

  // ---------------------------------------------------------------- split and join

  /** A word of `split()`: non-empty, without whitespace. */
  predicate IsToken(w: string) {
    |w| > 0 && forall i :: 0 <= i < |w| ==> !IsSpace(w[i])
  }

  predicate AllTokens(ws: seq<string>) { forall k :: 0 <= k < |ws| ==> IsToken(ws[k]) }

  /** The end of the word that starts at `i`. */
  function TokenEnd(s: string, i: nat): (j: nat)
    requires i <= |s|
    ensures i <= j <= |s| && (j == |s| || IsSpace(s[j]))
    ensures forall k :: i <= k < j ==> !IsSpace(s[k])
    decreases |s| - i
  {
    if i == |s| || IsSpace(s[i]) then i else TokenEnd(s, i + 1)
  }

  /** The words of `s[i..]`. */
  function SplitFrom(s: string, i: nat): (r: seq<string>)
    requires i <= |s|
    ensures AllTokens(r)
    decreases |s| - i
  {
    if i == |s| then []
    else if IsSpace(s[i]) then SplitFrom(s, i + 1)
    else
      var j := TokenEnd(s, i);
      [s[i..j]] + SplitFrom(s, j)
  }

  /** `s.split()`: the maximal runs of non-whitespace characters, in order. */
  function Split(s: string): seq<string> {
    SplitFrom(s, 0)
  }

  /** No words exactly when nothing but whitespace is left. */
  lemma {:induction false} SplitFromEmpty(s: string, i: nat)
    requires i <= |s|
    ensures SplitFrom(s, i) == [] <==> forall k :: i <= k < |s| ==> IsSpace(s[k])
    decreases |s| - i
  {
    if i < |s| && IsSpace(s[i]) {
      SplitFromEmpty(s, i + 1);
    }
  }

  /** `' '.join(ws)` */
  function Join(ws: seq<string>): string {
    if |ws| == 0 then ""
    else if |ws| == 1 then ws[0]
    else ws[0] + " " + Join(ws[1..])
  }

  lemma TokenEndStops(s: string, i: nat, j: nat)
    requires i <= j <= |s| && (j == |s| || IsSpace(s[j]))
    requires forall k :: i <= k < j ==> !IsSpace(s[k])
    ensures TokenEnd(s, i) == j
    decreases j - i
  {
    if i < j {
      TokenEndStops(s, i + 1, j);
    }
  }

  /** Words are found the same way in a suffix of a string. */
  lemma {:induction false} SplitFromShift(x: string, y: string, i: nat)
    requires i <= |y|
    ensures SplitFrom(x + y, |x| + i) == SplitFrom(y, i)
    decreases |y| - i
  {
    var s := x + y;
    assert s[|x|..] == y;
    if i < |y| {
      assert s[|x| + i] == y[i];
      if IsSpace(y[i]) {
        SplitFromShift(x, y, i + 1);
      } else {
        var j := TokenEnd(y, i);
        forall k | |x| + i <= k < |x| + j ensures !IsSpace(s[k]) {
          assert s[k] == y[k - |x|];
        }
        if j < |y| {
          assert s[|x| + j] == y[j];
        }
        TokenEndStops(s, |x| + i, |x| + j);
        assert s[|x| + i..|x| + j] == s[|x|..][i..j];
        SplitFromShift(x, y, j);
      }
    }
  }

  lemma SplitOfTokenThen(w: string, rest: string)
    requires IsToken(w) && (rest == [] || IsSpace(rest[0]))
    ensures Split(w + rest) == [w] + Split(rest)
  {
    var s := w + rest;
    assert forall k :: 0 <= k < |w| ==> s[k] == w[k];
    TokenEndStops(s, 0, |w|);
    assert s[..|w|] == w;
    SplitFromShift(w, rest, 0);
  }

  lemma JoinIsStripped(ws: seq<string>)
    requires AllTokens(ws)
    ensures IsStripped(Join(ws))
    ensures |ws| > 0 ==> |Join(ws)| > 0 && Join(ws)[0] == ws[0][0]
  {
    if |ws| > 1 {
      JoinIsStripped(ws[1..]);
    }
  }

  /** Splitting a space-joined list of words gives the words back. */
  lemma {:induction false} SplitJoin(ws: seq<string>)
    requires AllTokens(ws)
    ensures Split(Join(ws)) == ws
  {
    if |ws| == 1 {
      SplitOfTokenThen(ws[0], "");
      assert ws[0] + "" == ws[0];
    } else if |ws| > 1 {
      var rest := Join(ws[1..]);
      assert ws[0] + " " + rest == ws[0] + (" " + rest);
      SplitOfTokenThen(ws[0], " " + rest);
      SplitFromShift(" ", rest, 0);
      assert Split(" " + rest) == SplitFrom(" " + rest, 1);
      SplitJoin(ws[1..]);
    }
  }

  /** Python truthiness of an optional string: present and non-empty. */
  predicate Truthy(o: Option<string>) { o.Some? && o.value != "" }

  // ---------------------------------------------------------------- replace and search

  predicate OccursAt(s: string, p: string, i: int) {
    0 <= i && i + |p| <= |s| && s[i..i + |p|] == p
  }

  predicate Contains(s: string, p: string) { exists i :: 0 <= i <= |s| && OccursAt(s, p, i) }

  /** `s.replace(p, r)`: the non-overlapping occurrences of `p`, found left to right, replaced by `r`. */
  function ReplaceAll(s: string, p: string, r: string): string
    requires |p| > 0
    decreases |s|
  {
    if |s| < |p| then s
    else if s[..|p|] == p then r + ReplaceAll(s[|p|..], p, r)
    else [s[0]] + ReplaceAll(s[1..], p, r)
  }

  /** Replacing a pattern that does not occur changes nothing. */
  lemma {:induction false} ReplaceAllWithoutOccurrence(s: string, p: string, r: string)
    requires |p| > 0 && !Contains(s, p)
    ensures ReplaceAll(s, p, r) == s
    decreases |s|
  {
    if |s| >= |p| {
      assert !OccursAt(s, p, 0);
      assert !Contains(s[1..], p) by {
        forall i | OccursAt(s[1..], p, i) ensures OccursAt(s, p, i + 1) {
          assert s[i + 1..i + 1 + |p|] == s[1..][i..i + |p|];
        }
      }
      ReplaceAllWithoutOccurrence(s[1..], p, r);
      assert s == [s[0]] + s[1..];
    }
  }

  /** The last position of `c` in `s` (`rsplit(c, 1)` splits there). */
  function LastIndexOf(s: string, c: char): (r: Option<nat>)
    ensures r.Some? ==> r.value < |s| && s[r.value] == c && forall k :: r.value < k < |s| ==> s[k] != c
    ensures r.None? ==> forall k :: 0 <= k < |s| ==> s[k] != c
  {
    if s == [] then None
    else if s[|s| - 1] == c then Some(|s| - 1)
    else LastIndexOf(s[..|s| - 1], c)
  }

  // ---------------------------------------------------------------- padding

  function Zeros(n: nat): string {
    seq(n, i => '0')
  }

  /** `s.zfill(width)`: zeros added on the left, after a leading sign, up to `width`; never truncates. */
  function Zfill(s: string, width: nat): string {
    if |s| >= width then s
    else if |s| > 0 && (s[0] == '+' || s[0] == '-') then [s[0]] + Zeros(width - |s|) + s[1..]
    else Zeros(width - |s|) + s
  }

  /** `zfill` pads up to the width and never truncates; a string without a sign keeps
      its characters as the tail of the result, behind zeros only. */
  lemma ZfillSpec(s: string, width: nat)
    ensures |Zfill(s, width)| == if |s| >= width then |s| else width
    ensures |s| >= width ==> Zfill(s, width) == s
    ensures (|s| == 0 || (s[0] != '+' && s[0] != '-')) ==>
      var z := Zfill(s, width);
      && z[|z| - |s|..] == s
      && forall k :: 0 <= k < |z| - |s| ==> z[k] == '0'
  {
  }

  // ---------------------------------------------------------------- integers

  function DigitChar(d: nat): char
    requires d < 10
  {
    ('0' as int + d) as char
  }

  function DigitValue(c: char): nat
    requires IsDigit(c)
  {
    c as int - '0' as int
  }

  /** `str(n)` for a non-negative integer. */
  function NatToString(n: nat): (r: string)
    ensures |r| > 0 && AllDigits(r)
    decreases n
  {
    if n < 10 then [DigitChar(n)] else NatToString(n / 10) + [DigitChar(n % 10)]
  }

  /** `str(n)` */
  function IntToString(n: int): string {
    if n < 0 then "-" + NatToString(-n) else NatToString(n)
  }

  /** What `int()` accepts after the sign: digits, with single underscores between digits. */
  predicate IsIntBody(b: string) {
    && |b| > 0
    && IsDigit(b[0]) && IsDigit(b[|b| - 1])
    && (forall i :: 0 <= i < |b| ==> IsDigit(b[i]) || b[i] == '_')
    && (forall i :: 0 <= i < |b| - 1 ==> !(b[i] == '_' && b[i + 1] == '_'))
  }

  /** The number the digits of `b` spell, underscores skipped. */
  function DigitsValue(b: string): nat
    requires forall i :: 0 <= i < |b| ==> IsDigit(b[i]) || b[i] == '_'
  {
    if b == [] then 0
    else if b[|b| - 1] == '_' then DigitsValue(b[..|b| - 1])
    else 10 * DigitsValue(b[..|b| - 1]) + DigitValue(b[|b| - 1])
  }

  /** `int(s)` for a string: surrounding whitespace allowed, an optional sign, then the digits;
      None where Python raises ValueError. */
  function ParseInt(s: string): Option<int> {
    var t := Strip(s);
    if |t| > 0 && (t[0] == '-' || t[0] == '+') then
      if IsIntBody(t[1..]) then
        var v: int := DigitsValue(t[1..]);
        Some(if t[0] == '-' then -v else v)
      else None
    else if IsIntBody(t) then Some(DigitsValue(t))
    else None
  }

  lemma {:induction false} DigitsValueOfNatToString(n: nat)
    ensures DigitsValue(NatToString(n)) == n
    decreases n
  {
    var s := NatToString(n);
    if n >= 10 {
      DigitsValueOfNatToString(n / 10);
      assert s[..|s| - 1] == NatToString(n / 10);
    }
  }

  lemma {:induction false} DigitsValueOfZeros(n: nat)
    ensures forall i :: 0 <= i < |Zeros(n)| ==> IsDigit(Zeros(n)[i])
    ensures DigitsValue(Zeros(n)) == 0
  {
    if n > 0 {
      DigitsValueOfZeros(n - 1);
      assert Zeros(n)[..n - 1] == Zeros(n - 1);
    }
  }

  /** Leading zeros do not change the number a string of digits spells. */
  lemma {:induction false} DigitsValueWithLeadingZeros(n: nat, s: string)
    requires AllDigits(s)
    ensures AllDigits(Zeros(n) + s)
    ensures DigitsValue(Zeros(n) + s) == DigitsValue(s)
    decreases |s|
  {
    DigitsValueOfZeros(n);
    var z := Zeros(n) + s;
    if s == [] {
      assert z == Zeros(n);
    } else {
      DigitsValueWithLeadingZeros(n, s[..|s| - 1]);
      assert z[..|z| - 1] == Zeros(n) + s[..|s| - 1];
    }
  }

  /** `int(str(n)) == n`. */
  lemma ParseIntOfIntToString(n: int)
    ensures ParseInt(IntToString(n)) == Some(n)
  {
    var s := IntToString(n);
    var m := if n < 0 then -n else n;
    var body := NatToString(m);
    DigitsValueOfNatToString(m);
    assert IsIntBody(body);
    assert IsStripped(s);
    StripOfStripped(s, IsSpace);
    if n < 0 {
      assert s[1..] == body;
    }
  }

  // ---------------------------------------------------------------- repr

  function HexDigit(n: nat): char
    requires n < 16
  {
    if n < 10 then ('0' as int + n) as char else ('a' as int + n - 10) as char
  }

  /** Characters `repr` writes as `\xhh`: the control characters other than tab, line
      feed and carriage return, DEL, the C1 controls, the no-break space and the soft
      hyphen. */
  predicate IsHexEscaped(c: char) {
    (c < ' ' && c != '\t' && c != '\n' && c != '\r') || ('\U{7f}' <= c <= '\U{a0}') || c == '\U{ad}'
  }

  /** The characters `repr` escapes between the quotes `q`. */
  predicate IsReprEscaped(c: char, q: char) {
    c == '\\' || c == q || c == '\t' || c == '\n' || c == '\r' || IsHexEscaped(c)
  }

  /** One character as `repr` writes it between the quotes `q`: an escape that starts
      with a backslash, or the character itself. */
  function ReprChar(c: char, q: char): (r: string)
    ensures IsReprEscaped(c, q) ==> |r| >= 2 && r[0] == '\\'
    ensures !IsReprEscaped(c, q) ==> r == [c]
  {
    if c == '\\' then "\\\\"
    else if c == q then ['\\', q]
    else if c == '\t' then "\\t"
    else if c == '\n' then "\\n"
    else if c == '\r' then "\\r"
    else if IsHexEscaped(c) then "\\x" + [HexDigit(c as int / 16), HexDigit(c as int % 16)]
    else [c]
  }

  function ReprFrom(s: string, q: char): string
    decreases |s|
  {
    if s == [] then "" else ReprChar(s[0], q) + ReprFrom(s[1..], q)
  }

  /** The quote `repr` picks: double quotes when the text has a single quote and no
      double quote, single quotes otherwise. */
  function ReprQuote(s: string): char {
    if '\'' in s && '"' !in s then '"' else '\''
  }

  /** `repr(s)`, for characters up to U+00AD: quoted, with backslashes, the chosen quote
      and non-printable characters escaped. */
  function Repr(s: string): (r: string)
    ensures |r| >= 2 && r[0] == ReprQuote(s) && r[|r| - 1] == ReprQuote(s)
  {
    [ReprQuote(s)] + ReprFrom(s, ReprQuote(s)) + [ReprQuote(s)]
  }

  /** A character that `repr` writes as itself between the quotes `q`. */
  predicate IsReprPlain(c: char, q: char) {
    ' ' <= c < '\U{7f}' && c != '\\' && c != q
  }

  /** Text made of plain characters is written as it is. */
  lemma {:induction false} ReprFromPlain(s: string, q: char)
    requires forall i :: 0 <= i < |s| ==> IsReprPlain(s[i], q)
    ensures ReprFrom(s, q) == s
    decreases |s|
  {
    if s != [] {
      ReprFromPlain(s[1..], q);
      assert s == [s[0]] + s[1..];
    }
  }

  /** Printable ASCII text without a backslash: in single quotes when it has no single
      quote, and in double quotes when it has a single quote but no double quote. */
  lemma ReprOfPlain(s: string)
    requires forall i :: 0 <= i < |s| ==> ' ' <= s[i] < '\U{7f}' && s[i] != '\\'
    requires '\'' !in s || '"' !in s
    ensures '\'' !in s ==> Repr(s) == "'" + s + "'"
    ensures '\'' in s ==> Repr(s) == "\"" + s + "\""
  {
    ReprFromPlain(s, ReprQuote(s));
  }

  /** Escapes make the text longer, never shorter: it grows exactly when some character
      is escaped. */
  lemma {:induction false} ReprFromLength(s: string, q: char)
    ensures |ReprFrom(s, q)| >= |s|
    ensures (exists i :: 0 <= i < |s| && IsReprEscaped(s[i], q)) <==> |ReprFrom(s, q)| > |s|
    decreases |s|
  {
    if s != [] {
      ReprFromLength(s[1..], q);
      if i :| 0 <= i < |s| && IsReprEscaped(s[i], q) {
        if i > 0 {
          assert s[1..][i - 1] == s[i];
        }
      }
    }
  }

  /** `"%.200R" % s`: the `repr` cut to its first 200 characters. */
  function ReprCut(s: string): (r: string)
    ensures |r| <= 200 && |r| <= |Repr(s)| && r == Repr(s)[..|r|]
    ensures |Repr(s)| <= 200 ==> r == Repr(s)
    ensures |Repr(s)| > 200 ==> |r| == 200
  {
    var full := Repr(s);
    if |full| <= 200 then full else full[..200]
  }
}
