/** The street-string side of address matching: abbreviation expansion
    (`normalize_address`) and the candidate strings that
    `generate_address_variations` tries. The methods that run these steps
    live on the lookup class; this module holds what they are proved against. */
module Addresses {
  import opened Wrappers
  import opened PyStr

  // ---------------------------------------------------------------- regex word boundaries

  /** `\b` at position `k` of `t`: a word character on exactly one side. */
  predicate WordBoundary(t: string, k: int)
    requires 0 <= k <= |t|
  {
    (k > 0 && IsWordChar(t[k - 1])) != (k < |t| && IsWordChar(t[k]))
  }

  /** The pattern `\b<p>\b` matches at position `i`. */
  predicate WholeWordAt(t: string, p: string, i: int) {
    OccursAt(t, p, i) && WordBoundary(t, i) && WordBoundary(t, i + |p|)
  }

  predicate HasWholeWord(t: string, p: string) {
    exists i :: 0 <= i <= |t| && WholeWordAt(t, p, i)
  }

  /** `re.sub(r'\b' + re.escape(p) + r'\b', rep, t)` from position `i` on: matches are
      found left to right against the original string, and the scan resumes after each. */
  function SubFrom(t: string, p: string, rep: string, i: nat): string
    requires |p| > 0 && i <= |t|
    decreases |t| - i
  {
    if i + |p| > |t| then t[i..]
    else if WholeWordAt(t, p, i) then rep + SubFrom(t, p, rep, i + |p|)
    else [t[i]] + SubFrom(t, p, rep, i + 1)
  }

  function SubWholeWord(t: string, p: string, rep: string): string
    requires |p| > 0
  {
    SubFrom(t, p, rep, 0)
  }

  /** Where the pattern never matches as a whole word, the string is left as it is. */
  lemma {:induction false} SubFromWithoutMatch(t: string, p: string, rep: string, i: nat)
    requires |p| > 0 && i <= |t|
    requires forall k :: i <= k <= |t| ==> !WholeWordAt(t, p, k)
    ensures SubFrom(t, p, rep, i) == t[i..]
    decreases |t| - i
  {
    if i + |p| <= |t| {
      SubFromWithoutMatch(t, p, rep, i + 1);
      assert t[i..] == [t[i]] + t[i + 1..];
    }
  }

  lemma SubWholeWordWithoutMatch(t: string, p: string, rep: string)
    requires |p| > 0 && !HasWholeWord(t, p)
    ensures SubWholeWord(t, p, rep) == t
  {
    SubFromWithoutMatch(t, p, rep, 0);
  }

  /** Rewriting with a lower-case replacement keeps a lower-case string lower-case. */
  lemma {:induction false} SubFromNoUpper(t: string, p: string, rep: string, i: nat)
    requires |p| > 0 && i <= |t| && NoUpper(t) && NoUpper(rep)
    ensures NoUpper(SubFrom(t, p, rep, i))
    decreases |t| - i
  {
    var r := SubFrom(t, p, rep, i);
    if i + |p| > |t| {
      assert r == t[i..];
      assert forall k :: 0 <= k < |r| ==> r[k] == t[i + k];
    } else if WholeWordAt(t, p, i) {
      var rest := SubFrom(t, p, rep, i + |p|);
      SubFromNoUpper(t, p, rep, i + |p|);
      assert r == rep + rest;
      assert forall k :: |rep| <= k < |r| ==> r[k] == rest[k - |rep|];
    } else {
      var rest := SubFrom(t, p, rep, i + 1);
      SubFromNoUpper(t, p, rep, i + 1);
      assert r == [t[i]] + rest;
      assert forall k :: 1 <= k < |r| ==> r[k] == rest[k - 1];
    }
  }

  /** The first character of the rewritten text is the original first character or the
      replacement's first, and likewise for the last. */
  lemma {:induction false} SubFromEnds(t: string, p: string, rep: string, i: nat)
    requires |p| > 0 && i < |t| && |rep| > 0
    ensures var r := SubFrom(t, p, rep, i);
      && |r| > 0
      && (r[0] == t[i] || r[0] == rep[0])
      && (r[|r| - 1] == t[|t| - 1] || r[|r| - 1] == rep[|rep| - 1])
    decreases |t| - i
  {
    var r := SubFrom(t, p, rep, i);
    if i + |p| > |t| {
      assert r == t[i..];
    } else if WholeWordAt(t, p, i) {
      var rest := SubFrom(t, p, rep, i + |p|);
      assert r == rep + rest;
      if i + |p| < |t| {
        SubFromEnds(t, p, rep, i + |p|);
        assert r[|r| - 1] == rest[|rest| - 1];
      }
    } else {
      var rest := SubFrom(t, p, rep, i + 1);
      assert r == [t[i]] + rest;
      if i + 1 < |t| {
        SubFromEnds(t, p, rep, i + 1);
        assert r[|r| - 1] == rest[|rest| - 1];
      } else {
        assert rest == [];
      }
    }
  }

  /** A replacement word that starts and ends with a non-space keeps the text trimmed. */
  lemma SubWholeWordStripped(t: string, p: string, rep: string)
    requires |p| > 0 && IsStripped(t) && |rep| > 0 && IsStripped(rep)
    ensures IsStripped(SubWholeWord(t, p, rep))
  {
    if t != [] {
      SubFromEnds(t, p, rep, 0);
    }
  }

  /** `'main st'` becomes `'main street'`, but the `st` inside `first` is not a whole word. */
  lemma SubWholeWordExample()
    ensures SubWholeWord("first st", "st", "street") == "first street"
  {
    var t := "first st";
    assert !WholeWordAt(t, "st", 0) && !WholeWordAt(t, "st", 1) && !WholeWordAt(t, "st", 2);
    assert !WholeWordAt(t, "st", 3) && !WholeWordAt(t, "st", 4) && !WholeWordAt(t, "st", 5);
    assert t[6..8] == "st";
    assert WholeWordAt(t, "st", 6);
    assert SubFrom(t, "st", "street", 8) == [];
    assert SubFrom(t, "st", "street", 6) == "street";
    assert SubFrom(t, "st", "street", 5) == " street";
    assert SubFrom(t, "st", "street", 4) == "t street";
    assert SubFrom(t, "st", "street", 3) == "st street";
    assert SubFrom(t, "st", "street", 2) == "rst street";
    assert SubFrom(t, "st", "street", 1) == "irst street";
  }

  // ---------------------------------------------------------------- the abbreviation table

  /** The abbreviation table, in the order the dictionary literal lists it:
      each full word with the spellings that are rewritten to it. */
  const AddressAbbreviations: seq<(string, seq<string>)> := [
    ("street", ["st", "str", "st.", "str."]),
    ("avenue", ["ave", "av", "ave.", "av."]),
    ("boulevard", ["blvd", "blv", "blvd.", "blv."]),
    ("road", ["rd", "rd."]),
    ("drive", ["dr", "dr."]),
    ("lane", ["ln", "ln."]),
    ("court", ["ct", "ct."]),
    ("place", ["pl", "pl."]),
    ("circle", ["cir", "cir."]),
    ("north", ["n", "n."]),
    ("south", ["s", "s."]),
    ("east", ["e", "e."]),
    ("west", ["w", "w."]),
    ("northeast", ["ne", "ne."]),
    ("northwest", ["nw", "nw."]),
    ("southeast", ["se", "se."]),
    ("southwest", ["sw", "sw."])
  ]

  /** Every abbreviation is non-empty, and every full word is a lower-case word. */
  predicate WellFormedTable(table: seq<(string, seq<string>)>) {
    forall i :: 0 <= i < |table| ==> WellFormedEntry(table[i])
  }

  lemma AddressAbbreviationsWellFormed()
    ensures WellFormedTable(AddressAbbreviations)
  {
    FirstEntriesWellFormed();
    LastEntriesWellFormed();
  }

  predicate WellFormedEntry(e: (string, seq<string>)) {
    && |e.0| > 0 && IsStripped(e.0) && NoUpper(e.0)
    && forall j :: 0 <= j < |e.1| ==> |e.1[j]| > 0
  }

  lemma FirstEntriesWellFormed()
    ensures forall i :: 0 <= i < 9 ==> WellFormedEntry(AddressAbbreviations[i])
  {
  }

  lemma LastEntriesWellFormed()
    ensures forall i :: 9 <= i < |AddressAbbreviations| ==> WellFormedEntry(AddressAbbreviations[i])
  {
  }

  /** The inner loop: every spelling in `abbrs`, in order, rewritten to `full`. */
  function ExpandWith(t: string, abbrs: seq<string>, full: string): string
    requires forall j :: 0 <= j < |abbrs| ==> |abbrs[j]| > 0
    decreases |abbrs|
  {
    if abbrs == [] then t else ExpandWith(SubWholeWord(t, abbrs[0], full), abbrs[1..], full)
  }

  /** The outer loop: every entry of the table, in order. */
  function ExpandAll(t: string, table: seq<(string, seq<string>)>): string
    requires WellFormedTable(table)
    decreases |table|
  {
    if table == [] then t else ExpandAll(ExpandWith(t, table[0].1, table[0].0), table[1..])
  }

  /** What `normalize_address` computes. */
  function Normalize(address: string): string {
    AddressAbbreviationsWellFormed();
    ExpandAll(Strip(Lower(address)), AddressAbbreviations)
  }

  lemma {:induction false} ExpandWithKeeps(t: string, abbrs: seq<string>, full: string)
    requires forall j :: 0 <= j < |abbrs| ==> |abbrs[j]| > 0
    requires |full| > 0 && IsStripped(full) && NoUpper(full)
    requires NoUpper(t) && IsStripped(t)
    ensures NoUpper(ExpandWith(t, abbrs, full)) && IsStripped(ExpandWith(t, abbrs, full))
    decreases |abbrs|
  {
    if abbrs != [] {
      SubFromNoUpper(t, abbrs[0], full, 0);
      SubWholeWordStripped(t, abbrs[0], full);
      ExpandWithKeeps(SubWholeWord(t, abbrs[0], full), abbrs[1..], full);
    }
  }

  lemma {:induction false} ExpandAllKeeps(t: string, table: seq<(string, seq<string>)>)
    requires WellFormedTable(table) && NoUpper(t) && IsStripped(t)
    ensures NoUpper(ExpandAll(t, table)) && IsStripped(ExpandAll(t, table))
    decreases |table|
  {
    if table != [] {
      ExpandWithKeeps(t, table[0].1, table[0].0);
      ExpandAllKeeps(ExpandWith(t, table[0].1, table[0].0), table[1..]);
    }
  }

  lemma LowerIsLower(s: string)
    ensures NoUpper(Lower(s))
  {
  }

  lemma StripKeepsNoUpper(s: string)
    requires NoUpper(s)
    ensures NoUpper(Strip(s))
  {
    var lo := SkipWhere(s, IsSpace, 0);
    var hi := SkipBackWhere(s, IsSpace, |s|);
    if lo < hi {
      assert forall k :: 0 <= k < hi - lo ==> Strip(s)[k] == s[lo + k];
    }
  }

  /** The normalised street is lower-case and trimmed. */
  lemma NormalizeIsLowerAndTrimmed(address: string)
    ensures NoUpper(Normalize(address)) && IsStripped(Normalize(address))
  {
    AddressAbbreviationsWellFormed();
    var t := Strip(Lower(address));
    LowerIsLower(address);
    StripKeepsNoUpper(Lower(address));
    ExpandAllKeeps(t, AddressAbbreviations);
  }

  /** No spelling of `table` stands as a whole word in `t`. */
  predicate NoAbbreviationIn(t: string, table: seq<(string, seq<string>)>) {
    forall i, j :: 0 <= i < |table| && 0 <= j < |table[i].1| ==> !HasWholeWord(t, table[i].1[j])
  }

  lemma {:induction false} ExpandWithWithoutMatch(t: string, abbrs: seq<string>, full: string)
    requires forall j :: 0 <= j < |abbrs| ==> |abbrs[j]| > 0 && !HasWholeWord(t, abbrs[j])
    ensures ExpandWith(t, abbrs, full) == t
    decreases |abbrs|
  {
    if abbrs != [] {
      SubWholeWordWithoutMatch(t, abbrs[0], full);
      ExpandWithWithoutMatch(t, abbrs[1..], full);
    }
  }

  lemma {:induction false} ExpandAllWithoutMatch(t: string, table: seq<(string, seq<string>)>)
    requires WellFormedTable(table) && NoAbbreviationIn(t, table)
    ensures ExpandAll(t, table) == t
    decreases |table|
  {
    if table != [] {
      assert forall j :: 0 <= j < |table[0].1| ==> !HasWholeWord(t, table[0].1[j]);
      ExpandWithWithoutMatch(t, table[0].1, table[0].0);
      assert NoAbbreviationIn(t, table[1..]) by {
        forall i, j | 0 <= i < |table[1..]| && 0 <= j < |table[1..][i].1|
          ensures !HasWholeWord(t, table[1..][i].1[j])
        {
          assert table[1..][i] == table[i + 1];
        }
      }
      ExpandAllWithoutMatch(t, table[1..]);
    }
  }

  /** A street in which no abbreviation stands as a whole word is only lower-cased and trimmed. */
  lemma NormalizeWithoutAbbreviation(address: string)
    requires NoAbbreviationIn(Strip(Lower(address)), AddressAbbreviations)
    ensures Normalize(address) == Strip(Lower(address))
  {
    AddressAbbreviationsWellFormed();
    ExpandAllWithoutMatch(Strip(Lower(address)), AddressAbbreviations);
  }

  // ---------------------------------------------------------------- full candidate strings

  /** `f"{street}, {city}, {state}"`, followed by `f" {zip}"` when the zip is truthy. */
  function FullAddress(street: string, city: string, state: string, zip: Option<string>): string {
    street + ", " + city + ", " + state + (if Truthy(zip) then " " + zip.value else "")
  }

  // ---------------------------------------------------------------- unit designators

  /** The unit designator `w` (compared case-insensitively) stands between `\b` boundaries at `k`. */
  predicate UnitWordAt(s: string, k: nat, w: string) {
    k + |w| <= |s| && Lower(s[k..k + |w|]) == w && WordBoundary(s, k) && WordBoundary(s, k + |w|)
  }

  /** `\b(apt|apartment|unit|ste|suite|#)\b` matches at `k` (with IGNORECASE). */
  predicate UnitMatchAt(s: string, k: nat) {
    || UnitWordAt(s, k, "apt") || UnitWordAt(s, k, "apartment") || UnitWordAt(s, k, "unit")
    || UnitWordAt(s, k, "ste") || UnitWordAt(s, k, "suite") || UnitWordAt(s, k, "#")
  }

  /** The position of the next line break at or after `i`, or the end: where `.*` stops. */
  function LineEnd(s: string, i: nat): (j: nat)
    requires i <= |s|
    ensures i <= j <= |s| && (j == |s| || s[j] == '\n')
    ensures forall k :: i <= k < j ==> s[k] != '\n'
    decreases |s| - i
  {
    if i == |s| || s[i] == '\n' then i else LineEnd(s, i + 1)
  }

  /** `re.sub(r'\b(apt|apartment|unit|ste|suite|#)\b.*', '', s[i..], flags=re.IGNORECASE)`:
      each match runs from the designator to the end of its line. The scan resumes at the
      line break; the designator itself holds no line break, so the line end seen from `i + 1`
      is the one `.*` reaches. */
  function RemoveUnitsFrom(s: string, i: nat): string
    requires i <= |s|
    decreases |s| - i
  {
    if i == |s| then ""
    else if UnitMatchAt(s, i) then RemoveUnitsFrom(s, LineEnd(s, i + 1))
    else [s[i]] + RemoveUnitsFrom(s, i + 1)
  }

  /** The street without its unit designator, trimmed. */
  function StripUnit(address: string): string {
    Strip(RemoveUnitsFrom(address, 0))
  }

  lemma {:induction false} RemoveUnitsWithoutMatch(s: string, i: nat)
    requires i <= |s| && forall k :: i <= k < |s| ==> !UnitMatchAt(s, k)
    ensures RemoveUnitsFrom(s, i) == s[i..]
    decreases |s| - i
  {
    if i < |s| {
      RemoveUnitsWithoutMatch(s, i + 1);
      assert s[i..] == [s[i]] + s[i + 1..];
    }
  }

  /** A trimmed street without a unit designator gives no unit-stripped candidate. */
  lemma StripUnitWithoutDesignator(address: string)
    requires IsStripped(address) && forall k :: 0 <= k < |address| ==> !UnitMatchAt(address, k)
    ensures StripUnit(address) == address
  {
    RemoveUnitsWithoutMatch(address, 0);
    assert address[0..] == address;
    StripOfStripped(address, IsSpace);
  }

  // ---------------------------------------------------------------- punctuation

  /** `re.sub(r'[^\w\s]', '', s)`: drops every character that is neither a word character nor whitespace. */
  function RemovePunctuation(s: string): (r: string)
    ensures |r| <= |s|
    ensures forall k :: 0 <= k < |r| ==> IsWordChar(r[k]) || IsSpace(r[k])
  {
    if s == [] then ""
    else (if IsWordChar(s[0]) || IsSpace(s[0]) then [s[0]] else "") + RemovePunctuation(s[1..])
  }

  /** `re.sub(r'\s+', ' ', s[i..])`: every maximal run of whitespace becomes one space. */
  function CollapseFrom(s: string, i: nat): string
    requires i <= |s|
    decreases |s| - i
  {
    if i == |s| then ""
    else if IsSpace(s[i]) then " " + CollapseFrom(s, SkipWhere(s, IsSpace, i))
    else [s[i]] + CollapseFrom(s, i + 1)
  }

  /** No two spaces in a row. */
  predicate SingleSpaced(s: string) {
    forall k :: 0 <= k < |s| - 1 ==> !(s[k] == ' ' && s[k + 1] == ' ')
  }

  /** Word characters and single spaces. */
  predicate CleanText(s: string) {
    (forall k :: 0 <= k < |s| ==> IsWordChar(s[k]) || s[k] == ' ') && SingleSpaced(s)
  }

  lemma {:induction false} CollapseFromClean(s: string, i: nat)
    requires i <= |s| && forall k :: i <= k < |s| ==> IsWordChar(s[k]) || IsSpace(s[k])
    ensures CleanText(CollapseFrom(s, i))
    ensures (i < |s| && !IsSpace(s[i])) ==> |CollapseFrom(s, i)| > 0 && CollapseFrom(s, i)[0] == s[i]
    ensures i == |s| <==> CollapseFrom(s, i) == ""
    decreases |s| - i
  {
    if i < |s| {
      if IsSpace(s[i]) {
        var j := SkipWhere(s, IsSpace, i);
        assert j > i;
        CollapseFromClean(s, j);
      } else {
        CollapseFromClean(s, i + 1);
      }
    }
  }

  /** The street without punctuation, with whitespace runs collapsed and the ends trimmed. */
  function CleanPunctuation(address: string): string {
    Strip(CollapseFrom(RemovePunctuation(address), 0))
  }

  /** The punctuation-free candidate holds only word characters and single inner spaces. */
  lemma CleanPunctuationIsClean(address: string)
    ensures CleanText(CleanPunctuation(address)) && IsStripped(CleanPunctuation(address))
  {
    var c := CollapseFrom(RemovePunctuation(address), 0);
    CollapseFromClean(RemovePunctuation(address), 0);
    var lo, hi := StripIsSlice(c);
    CleanSlice(c, lo, hi);
  }

  /** A slice of clean text is clean. */
  lemma CleanSlice(c: string, lo: nat, hi: nat)
    requires CleanText(c) && lo <= hi <= |c|
    ensures CleanText(c[lo..hi])
  {
    var d := c[lo..hi];
    assert forall k :: 0 <= k < |d| ==> d[k] == c[lo + k];
  }

  // ---------------------------------------------------------------- the candidate list

  /** The list `generate_address_variations` appends to, before duplicates are removed. */
  function Candidates(address: string, city: string, state: string, zip: Option<string>): seq<string> {
    var unit := StripUnit(address);
    var clean := CleanPunctuation(address);
    [FullAddress(address, city, state, zip), FullAddress(Normalize(address), city, state, zip)]
    + (if unit != address then [FullAddress(unit, city, state, zip)] else [])
    + (if clean != address then [FullAddress(clean, city, state, zip)] else [])
  }

  predicate NoDuplicates<T(==)>(s: seq<T>) {
    forall i, j :: 0 <= i < j < |s| ==> s[i] != s[j]
  }

  /** `list(set(candidates))`: the distinct candidates, in an order Python does not fix. */
  predicate IsVariationList(vars: seq<string>, address: string, city: string, state: string, zip: Option<string>) {
    var c := Candidates(address, city, state, zip);
    && NoDuplicates(vars)
    && (forall v :: v in vars ==> v in c)
    && (forall v :: v in c ==> v in vars)
  }

  /** The candidates actually tried: the variation list with fuzzy matching, otherwise the
      literal full address alone. */
  predicate IsTriedList(vars: seq<string>, address: string, city: string, state: string, zip: Option<string>, fuzzy: bool) {
    if fuzzy then IsVariationList(vars, address, city, state, zip)
    else vars == [FullAddress(address, city, state, zip)]
  }

  lemma {:induction false} DistinctCount<T>(s: seq<T>, t: seq<T>)
    requires NoDuplicates(s) && forall x :: x in s ==> x in t
    ensures |s| <= |t|
  {
    var a := set x | x in s;
    var b := set x | x in t;
    DistinctSetSize(s);
    SetSizeBound(t);
    assert a <= b;
    assert b == a + (b - a) && a * (b - a) == {};
  }

  lemma {:induction false} DistinctSetSize<T>(s: seq<T>)
    requires NoDuplicates(s)
    ensures |set x | x in s| == |s|
  {
    if s != [] {
      var rest := s[1..];
      assert NoDuplicates(rest);
      DistinctSetSize(rest);
      assert (set x | x in s) == (set x | x in rest) + {s[0]};
      assert s[0] !in rest;
    }
  }

  lemma {:induction false} SetSizeBound<T>(s: seq<T>)
    ensures |set x | x in s| <= |s|
  {
    if s != [] {
      SetSizeBound(s[1..]);
      assert (set x | x in s) == (set x | x in s[1..]) + {s[0]};
    }
  }

  /** A variation list always holds the literal and the normalised candidate, adds the
      unit-stripped and punctuation-free candidates only when they differ from the street,
      and has between one and four entries. */
  lemma VariationListShape(vars: seq<string>, address: string, city: string, state: string, zip: Option<string>)
    requires IsVariationList(vars, address, city, state, zip)
    ensures FullAddress(address, city, state, zip) in vars
    ensures FullAddress(Normalize(address), city, state, zip) in vars
    ensures StripUnit(address) != address ==> FullAddress(StripUnit(address), city, state, zip) in vars
    ensures CleanPunctuation(address) != address ==> FullAddress(CleanPunctuation(address), city, state, zip) in vars
    ensures forall v :: v in vars ==>
      || v == FullAddress(address, city, state, zip)
      || v == FullAddress(Normalize(address), city, state, zip)
      || (StripUnit(address) != address && v == FullAddress(StripUnit(address), city, state, zip))
      || (CleanPunctuation(address) != address && v == FullAddress(CleanPunctuation(address), city, state, zip))
    ensures 1 <= |vars| <= 4
  {
    var c := Candidates(address, city, state, zip);
    CandidatesMembers(address, city, state, zip);
    assert c[0] in vars;
    DistinctCount(vars, c);
  }

  lemma InOptionalList<X>(v: X, a: X, b: X, p: bool, x: X, q: bool, y: X)
    ensures v in [a, b] + (if p then [x] else []) + (if q then [y] else []) <==>
      v == a || v == b || (p && v == x) || (q && v == y)
  {
  }

  lemma CandidatesMembers(address: string, city: string, state: string, zip: Option<string>)
    ensures var c := Candidates(address, city, state, zip);
      && |c| <= 4
      && FullAddress(address, city, state, zip) in c
      && FullAddress(Normalize(address), city, state, zip) in c
      && (StripUnit(address) != address ==> FullAddress(StripUnit(address), city, state, zip) in c)
      && (CleanPunctuation(address) != address ==> FullAddress(CleanPunctuation(address), city, state, zip) in c)
      && forall v :: v in c ==>
        || v == FullAddress(address, city, state, zip)
        || v == FullAddress(Normalize(address), city, state, zip)
        || (StripUnit(address) != address && v == FullAddress(StripUnit(address), city, state, zip))
        || (CleanPunctuation(address) != address && v == FullAddress(CleanPunctuation(address), city, state, zip))
  {
    var lit := FullAddress(address, city, state, zip);
    var norm := FullAddress(Normalize(address), city, state, zip);
    var unit := StripUnit(address);
    var clean := CleanPunctuation(address);
    var x := FullAddress(unit, city, state, zip);
    var y := FullAddress(clean, city, state, zip);
    forall v ensures v in Candidates(address, city, state, zip) <==>
      v == lit || v == norm || (unit != address && v == x) || (clean != address && v == y)
    {
      InOptionalList(v, lit, norm, unit != address, x, clean != address, y);
    }
  }
}
