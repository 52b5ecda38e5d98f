/** A worked example of the address parser: "25 Drake Ave, New Rochelle, New York 10805",
    taken through each stage of `ParseAddress` (country removal, the ZIP code, the last comma,
    the state and two-word city read from either side of it). */
module AddressExamples {
  import opened Wrappers
  import opened PyStr
  import opened AddressParser

  const DrakeInput: string := "25 Drake Ave, New Rochelle, New York 10805"
  const DrakeAddr: string := "25 Drake Ave, New Rochelle, New York"

  lemma AbsentWithoutFirstChar(s: string, p: string)
    requires |p| > 0 && p[0] == 'U'
    requires forall k :: 0 <= k < |s| ==> s[k] != 'U'
    ensures !Contains(s, p)
  {
    assert forall i :: 0 <= i <= |s| && OccursAt(s, p, i) ==> s[i..i + |p|][0] == s[i];
  }

  lemma DrakeCountry()
    ensures RemoveCountry(DrakeInput) == DrakeInput
  {
    var s := DrakeInput;
    StripOfStripped(s, IsSpace);
    assert forall k :: 0 <= k < |s| ==> s[k] != 'U';
    AbsentWithoutFirstChar(s, "United States");
    ReplaceAllWithoutOccurrence(s, "United States", "");
    AbsentWithoutFirstChar(s, "USA");
    ReplaceAllWithoutOccurrence(s, "USA", "");
  }

  lemma DrakeZip()
    ensures ZipStart(DrakeInput) == Some(37)
  {
    var s := DrakeInput;
    assert s[32..][0] == 'Y';
    assert !AllDigits(s[32..][..5]) by { assert !IsDigit(s[32..][..5][0]); }
    assert s[37..] == "10805";
  }

  lemma DrakeTrail()
    ensures StripWhere(DrakeInput[..37], IsCommaOrSpace) == DrakeAddr
  {
    var a := DrakeInput[..37];
    assert a == DrakeAddr + " ";
    assert SkipWhere(a, IsCommaOrSpace, 0) == 0;
    assert SkipBackWhere(a, IsCommaOrSpace, |a|) == 36;
  }

  lemma DrakePrepared()
    ensures Prepared(DrakeInput) == (DrakeAddr, Some("10805"))
  {
    DrakeCountry();
    DrakeZip();
    DrakeTrail();
    StripOfStripped(DrakeAddr, IsSpace);
    assert DrakeInput[37..] == "10805";
  }

  lemma DrakeComma()
    ensures LastIndexOf(DrakeAddr, ',') == Some(26)
  {
    var a := DrakeAddr;
    assert a[26] == ',';
    assert forall k :: 26 < k < |a| ==> a[k] != ',';
  }

  lemma JoinCons(w: string, ws: seq<string>)
    requires |ws| > 0
    ensures Join([w] + ws) == w + " " + Join(ws)
  {
    assert ([w] + ws)[1..] == ws;
  }

  lemma DrakeJoins()
    ensures Join(["New", "York"]) == "New York"
    ensures Join(["New", "Rochelle"]) == "New Rochelle"
    ensures Join(["25", "Drake", "Ave,"]) == "25 Drake Ave,"
  {
    JoinCons("New", ["York"]);
    JoinCons("New", ["Rochelle"]);
    JoinCons("Drake", ["Ave,"]);
    JoinCons("25", ["Drake", "Ave,"]);
  }

  lemma DrakeLeftJoin()
    ensures Join(["25", "Drake", "Ave,", "New", "Rochelle"]) == "25 Drake Ave, New Rochelle"
  {
    DrakeJoins();
    JoinCons("Ave,", ["New", "Rochelle"]);
    assert Join(["Ave,", "New", "Rochelle"]) == "Ave, New Rochelle";
    JoinCons("Drake", ["Ave,", "New", "Rochelle"]);
    assert Join(["Drake", "Ave,", "New", "Rochelle"]) == "Drake Ave, New Rochelle";
    JoinCons("25", ["Drake", "Ave,", "New", "Rochelle"]);
  }

  lemma DrakeRightWords()
    ensures Split("New York") == ["New", "York"]
  {
    DrakeJoins();
    var rt := ["New", "York"];
    assert AllTokens(rt);
    SplitJoin(rt);
  }

  lemma DrakeLeftWords()
    ensures Split("25 Drake Ave, New Rochelle") == ["25", "Drake", "Ave,", "New", "Rochelle"]
  {
    DrakeLeftJoin();
    var lt := ["25", "Drake", "Ave,", "New", "Rochelle"];
    assert IsToken(lt[0]) && IsToken(lt[1]) && IsToken(lt[2]) && IsToken(lt[3]) && IsToken(lt[4]);
    SplitJoin(lt);
  }

  lemma DrakeState()
    ensures Lower(Join(["New", "York"][0..])) in StateNames
    ensures StateNames[Lower(Join(["New", "York"][0..]))] == "NY"
  {
    DrakeJoins();
    assert ["New", "York"][0..] == ["New", "York"];
    assert Lower("New York") == "new york";
    assert "new york" in StateNamesSecond;
  }

  lemma DrakeCity()
    ensures Strip(Join(["25", "Drake", "Ave,", "New", "Rochelle"][3..])) == "New Rochelle"
    ensures Strip(Join(["25", "Drake", "Ave,", "New", "Rochelle"][..3])) == "25 Drake Ave,"
  {
    DrakeJoins();
    var lt := ["25", "Drake", "Ave,", "New", "Rochelle"];
    assert lt[3..] == ["New", "Rochelle"] && lt[..3] == ["25", "Drake", "Ave,"];
    StripOfStripped("New Rochelle", IsSpace);
    StripOfStripped("25 Drake Ave,", IsSpace);
  }

  lemma DrakeRight()
    ensures ReadRight("New York", "25 Drake Ave, New Rochelle")
      == Some(RightRead(Some("NY"), Some("New Rochelle"), "25 Drake Ave,"))
  {
    DrakeRightWords();
    DrakeLeftWords();
    DrakeState();
    DrakeCity();
    var rt := ["New", "York"];
    var lt := ["25", "Drake", "Ave,", "New", "Rochelle"];
    assert |rt| == 2 && rt[|rt| - 2..] == rt[0..];
    assert StartsUpper(lt[3]) && StartsUpper(Last(lt));
    assert lt[|lt| - 2..] == lt[3..] && lt[..|lt| - 2] == lt[..3];
  }

  lemma DrakeRightHalf()
    ensures Strip(DrakeAddr[27..]) == "New York"
  {
    var r := DrakeAddr[27..];
    assert r == " New York";
    assert SkipWhere(r, IsSpace, 1) == 1;
    assert SkipWhere(r, IsSpace, 0) == 1;
    assert SkipBackWhere(r, IsSpace, 9) == 9;
    assert r[1..9] == "New York";
  }

  lemma DrakeLeftHalf()
    ensures Strip(DrakeAddr[..26]) == "25 Drake Ave, New Rochelle"
  {
    assert DrakeAddr[..26] == "25 Drake Ave, New Rochelle";
    StripOfStripped("25 Drake Ave, New Rochelle", IsSpace);
  }

  lemma DrakeFinish()
    ensures Finish(Some("25 Drake Ave,"), Some("New Rochelle"), Some("NY"), Some("10805"))
      == ParsedAddress(Some("25 Drake Ave,"), Some("New Rochelle"), Some("NY"), Some("10805"))
  {
    StripOfStripped("25 Drake Ave,", IsSpace);
    StripOfStripped("New Rochelle", IsSpace);
    StripOfStripped("NY", IsSpace);
    StripOfStripped("10805", IsSpace);
  }

  lemma DrakeWithComma()
    ensures ParseWithComma(DrakeAddr, 26, Some("10805"))
      == Parsed(ParsedAddress(Some("25 Drake Ave,"), Some("New Rochelle"), Some("NY"), Some("10805")))
  {
    DrakeRightHalf();
    DrakeLeftHalf();
    DrakeRight();
    var rr := RightRead(Some("NY"), Some("New Rochelle"), "25 Drake Ave,");
    assert ReadLeft(rr) == Reading("25 Drake Ave,", Some("New Rochelle"), Some("NY"));
    assert CityFromStreet(ReadLeft(rr)) == ReadLeft(rr);
    DrakeFinish();
  }

  /** "25 Drake Ave, New Rochelle, New York 10805": the state is the two words after the
      last comma, and the two capitalised words before it become the city. */
  lemma DrakeAvenueParse()
    ensures ParseAddress(DrakeInput)
      == Parsed(ParsedAddress(Some("25 Drake Ave,"), Some("New Rochelle"), Some("NY"), Some("10805")))
  {
    StripOfStripped(DrakeInput, IsSpace);
    assert !IsBlank(DrakeInput);
    DrakePrepared();
    DrakeComma();
    DrakeWithComma();
  }
}
