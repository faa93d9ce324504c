/** The waybill id list that travels from the upload response to the export
    request: `','.join(map(str, ids))` on one side
    (backend/waybill/views.py:403-405) and the query parser of
    `download_excel` on the other (backend/waybill/views.py:423, 437-446). */
module WaybillIds {
  import opened Common
  import opened Strings

  /** `str(id)` for each id, in order. */
  function Decimals(ids: seq<nat>): (r: seq<string>)
    ensures |r| == |ids|
  {
    if |ids| == 0 then [] else Decimals(ids[..|ids| - 1]) + [Decimal(ids[|ids| - 1])]
  }

  /** The `ids` parameter of the download URL. */
  function FormatIds(ids: seq<nat>): (r: string)
    ensures r == "" <==> |ids| == 0
  {
    JoinedDecimalsNonEmpty(ids);
    Join(Decimals(ids), ",")
  }

  lemma JoinedDecimalsNonEmpty(ids: seq<nat>)
    ensures |ids| > 0 ==> Join(Decimals(ids), ",") != ""
  {
    if |ids| > 0 {
      var parts := Decimals(ids);
      DecimalsAreDigits(ids);
      assert |parts[0]| > 0;
      JoinLength(parts, ",");
    }
  }

  /** One token of the list comprehension: kept when, stripped, it is a
      non-empty run of digits, and read as that number. */
  function ParseToken(token: string): (r: seq<nat>)
    ensures |r| <= 1
  {
    var t := Strip(token);
    if IsDigits(t) then [DigitsValue(t)] else []
  }

  /** The list comprehension over the comma-separated tokens. */
  function ParseTokens(tokens: seq<string>): (r: seq<nat>)
    ensures |r| <= |tokens|
  {
    AtMostOneIdPerToken(tokens);
    ConcatMap(tokens, ParseToken)
  }

  lemma {:induction false} AtMostOneIdPerToken(tokens: seq<string>)
    ensures |ConcatMap(tokens, ParseToken)| <= |tokens|
  {
    if |tokens| > 0 {
      AtMostOneIdPerToken(tokens[..|tokens| - 1]);
    }
  }

  /** Which waybills the export covers: all of them for an empty (or missing)
      `ids` parameter, otherwise those whose id is in the parsed list. */
  datatype Selection = AllWaybills | OnlyIds(ids: seq<nat>)

  function SelectWaybills(query: string): (r: Selection)
    ensures r.AllWaybills? <==> query == ""
    ensures r.OnlyIds? ==> |r.ids| <= |Split(query, ',')|
  {
    if query == "" then AllWaybills else OnlyIds(ParseTokens(Split(query, ',')))
  }

  /** Tokens are parsed independently and stay in order. */
  lemma ParseTokensAppend(a: seq<string>, b: seq<string>)
    ensures ParseTokens(a + b) == ParseTokens(a) + ParseTokens(b)
  {
    ConcatMapAppend(a, b, ParseToken);
  }

  /** A token that is not a run of digits once stripped (empty, signed,
      spelled out, ...) is dropped without a trace. */
  lemma NonDigitTokenDropped(tokens: seq<string>, t: string)
    requires !IsDigits(Strip(t))
    ensures ParseTokens(tokens + [t]) == ParseTokens(tokens)
  {
    assert (tokens + [t])[..|tokens|] == tokens;
  }

  /** A decimal form is read back as its number. */
  lemma ParseDecimal(n: nat)
    ensures Strip(Decimal(n)) == Decimal(n)
    ensures IsDigits(Decimal(n)) && DigitsValue(Decimal(n)) == n
  {
    var d := Decimal(n);
    assert IsDigit(d[0]) && IsDigit(d[|d| - 1]);
    DigitsValueOfDecimal(n);
  }

  /** A digit token is read and appended after the tokens before it. */
  lemma DigitTokenKept(tokens: seq<string>, t: string)
    requires IsDigits(Strip(t))
    ensures ParseTokens(tokens + [t]) == ParseTokens(tokens) + [DigitsValue(Strip(t))]
  {
    assert (tokens + [t])[..|tokens|] == tokens;
  }

  /** Reading back the decimal forms gives the ids themselves. */
  lemma {:induction false} ParseDecimals(ids: seq<nat>)
    ensures ParseTokens(Decimals(ids)) == ids
  {
    if |ids| > 0 {
      var init := ids[..|ids| - 1];
      var n := ids[|ids| - 1];
      assert init + [n] == ids;
      var d := Decimal(n);
      assert Decimals(ids) == Decimals(init) + [d];
      ParseDecimals(init);
      ParseDecimal(n);
      DigitTokenKept(Decimals(init), d);
      assert ParseTokens(Decimals(ids)) == init + [n];
    }
  }

  /** The download URL built after an upload selects exactly the uploaded
      waybills, in upload order. */
  lemma FormatParseRoundTrip(ids: seq<nat>)
    requires |ids| >= 1
    ensures SelectWaybills(FormatIds(ids)) == OnlyIds(ids)
  {
    var parts := Decimals(ids);
    DecimalsAreDigits(ids);
    forall k | 0 <= k < |parts| ensures ',' !in parts[k] {
      assert IsDigits(parts[k]);
    }
    SplitJoinRoundTrip(parts, ',');
    ParseDecimals(ids);
  }

  lemma {:induction false} DecimalsAreDigits(ids: seq<nat>)
    ensures forall k :: 0 <= k < |ids| ==> IsDigits(Decimals(ids)[k])
  {
    if |ids| > 0 {
      DecimalsAreDigits(ids[..|ids| - 1]);
    }
  }

  /** Joined text is at least as long as its first piece. */
  lemma JoinLength(parts: seq<string>, sep: string)
    requires |parts| >= 1
    ensures |Join(parts, sep)| >= |parts[0]|
  {
  }

  /** An empty id list formats to the empty parameter, which selects every
      waybill rather than none. */
  lemma EmptyIdsSelectAll()
    ensures SelectWaybills(FormatIds([])) == AllWaybills
  {
  }

  /** A non-empty parameter holding no digit token selects no waybill. */
  lemma SeparatorsOnlySelectNone()
    ensures SelectWaybills(",") == OnlyIds([])
  {
    var tokens := Split(",", ',');
    assert tokens == ["", ""] by {
      assert Split("", ',') == [""];
    }
    assert Strip("") == "";
    NonDigitTokenDropped([""], "");
  }
}
